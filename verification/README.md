# Flush-buffer ring: model and proofs

A latch-free ring of 1 MiB flush buffers that many threads fill, seal and
dispatch without locks (`src/`), and a four-slot batch writer, several of which
share one file (`examples/model.rs`).  Both are modelled as step systems whose
steps are the single atomic accesses of the code, with any interleaving of any
number of threads and any order of completions.  Classes with the fields, arrays
and loops of the code are proved to take exactly those steps.  The main results
are about every run: what a completion message or a returned range names on disk
is what was put in, for good.

## How the parts fit together

| files | what they hold |
|---|---|
| `bits`, `state_word` | the packed 64-bit word, its two decoders, and each atomic operation on it as an update of a record, carries and borrows included |
| `files` | byte strings, buffer memory, the backing file |
| `ring_protocol` | the ring as a step system: a thread is at one of 28 program points, each naming the one shared access it makes next |
| `ring_invariant` | the inductive invariant, a conjunction of small predicates over one thread, one buffer, one batch (what a buffer collects between two resets), or one record |
| `ring_frames`, `ring_quiet`, `ring_reservations`, `ring_sealing`, `ring_flushing` | every step keeps the invariant |
| `ring_history`, `ring_theorems` | runs, history, and the guarantees |
| `ring_progress` | left alone, the threads come to rest, and every sealed buffer has been dispatched |
| `ring_assumptions`, `ring_early_dispatch`, `ring_lost_records` | the scheduling assumptions: exactly when a step that ignores one of them does harm, and which sets of them are enough |
| `ring_rotation` | the scan for the next buffer |
| `ring_alone` | whole operations that nobody disturbs, in fields and numbers, and the first seal of a new ring |
| `ring_shape`, `ring_views` | what a step keeps and changes with no assumption at all |
| `flush_buffer`, `quik_io`, `buffer_ring` | the objects, their methods and loops; `buffer_ring` takes the steps of `ring_protocol` and no others |
| `durability` | the guarantees restated on the ring object and through the aligned read |
| `writer_system`, `writer_steps`, `writer_theorems`, `writer_readback` | the slot-ring writers as a step system, their invariant and guarantees |
| `slot_ring_writer` | the writer object; its methods take the steps of `writer_system` |

Program points of `RingProtocol.Pc` and the lines they stand for:
`Picked` loads the word (src/flush_buffer.rs:84), `Loaded` exchanges it
(src/flush_buffer.rs:101-107), `Reserved` copies (src/ring.rs:271), `Written`
releases (src/ring.rs:273), `LastWriter` claims the flush (src/ring.rs:280),
`SawFull` seals (src/ring.rs:228), `Sealing` loads the size (src/ring.rs:236),
`Sized` claims the range (src/ring.rs:237), `Publishing` stores its start
(src/ring.rs:238), `Rotating` to `Stamping` are the loads, the scan, the exchange
and the address booking of `rotate_after_seal` (src/ring.rs:373-398,
src/ring.rs:512-517), `Checking` and `Claiming` are the sealer's own check
(src/ring.rs:245-247), `Flushing` to `Pushing` are `flush` and `submit_buffer`
(src/ring.rs:333-337, src/flush_buffer.rs:296-306), `Reaping` to `Clearing` are
the good end of a completion (src/ring.rs:467-472, src/ring.rs:432-433) and
`Retrying` its bad end (src/ring.rs:458-464).

Other threads and the kernel appear in a method as a call of `Interfere`, whose
contract allows any steps of others, at every point where the code touches
something shared.  Its body need not take any.  What the kernel has put in the
completion queue when a thread looks comes from `Arrive`, which also logs it.

## Scheduling assumptions

The code does not enforce three things its safety rests on.  They are the fields
of `RingProtocol.Guards`, each a condition on one kind of step:

- `dispatchAfterPublish`: a last writer loads the address of a sealed buffer only
  after the sealer has stored it (src/ring.rs:228-238 is not one atomic step);
- `resetAfterTail`: a completion resets a buffer only when neither its sealer nor
  its last writer is between sealing or releasing and the end of its own check
  (src/ring.rs:245-247, src/ring.rs:273-280); the whole tail of the sealer is
  needed, not only the part after it saw no writers;
- `publishAfterClear`: a sealer stores its address only when no reset is between
  its two stores (src/ring.rs:432-433).

The guarantees hold for every run that respects all three
(`RingHistory.Reached`), and `RingLostRecords.GuardsExactly` says that no fewer
are enough: bytes that a completion message has reported can be overwritten under
exactly the sets that lack one of the three.  For each of the three there is also
a theorem about any single step that ignores it, from any state in which all has
been in order: a dispatch (`RingEarlyDispatch.DispatchExactly`), a reset
(`RingAssumptions.ResetExactly`) and a publication
(`RingAssumptions.PublishExactly`) do harm exactly under the condition the
assumption excludes.  An early dispatch is the only one of these with harmless
cases: it does none when it finds the very address its sealer is about to store
and no reset is about to wipe that out.  The assumptions never block the threads
for good (`RingProgress.ComesToRest`).  `BufferRings` relies on none of them.

Two further facts about the code that the model keeps: the sealing branch of `put`
can return `Ok` without having written its payload (src/ring.rs:246-256), so only
the `Ok(offset)` branch gives a receipt; and the index counter of the scan wraps at
2^64, so for ring sizes that do not divide 2^64 the scan can miss the only
available buffer once.  The documentation of `is_available` does not mention that
the offset must be zero; the model follows the code (src/flush_buffer.rs:54-57).

## Model

| member | source | states |
|---|---|---|
| StateWord.DecodeEncode | src/lib.rs:146-199 | reading any packed word gives back the fields it was built from |
| StateWord.EncodeDecode | src/lib.rs:146-199 | every 64-bit word is the encoding of the fields read from it |
| StateWord.DecodersAgree | src/state.rs:12-36 | the snapshot wrapper and the free functions read the same four values |
| StateWord.FieldsRead | src/lib.rs:146-199 | where the fields are: offset in bits 63..32, writers in 31..8, the flush flag in bit 1, the sealed flag in bit 0 |
| StateWord.FlagsTest | src/flush_buffer.rs:86-88 | the combined mask test is zero iff neither flag is set |
| StateWord.ReserveRefines | src/flush_buffer.rs:97-99 | the two wrapping additions act as one reservation on the record, for every word, with the exact carry into the offset and wrap of the offset; without these, offset plus size and writers plus one |
| StateWord.DecrementRefines | src/flush_buffer.rs:134-136 | the subtraction releases one writer, with the exact borrow from the offset; with a writer there, writers minus one and nothing else |
| StateWord.SealRefines | src/flush_buffer.rs:192-199 | of the fields read, the OR sets sealed to true and leaves the others |
| StateWord.SetFlushRefines | src/flush_buffer.rs:152-154 | of the fields read, the OR sets flushing to true and leaves the others |
| StateWord.ClearFlushRefines | src/flush_buffer.rs:160-163 | of the fields read, the AND sets flushing to false and leaves the others |
| StateWord.ZeroOffsetRefines | src/flush_buffer.rs:242-242 | of the fields read, the mask sets the offset to 0 and leaves the others |
| FlushBuffers.FlushBuffer.constructor | src/flush_buffer.rs:30-38 | a new buffer is open, empty, zeroed and has address 0 |
| FlushBuffers.FlushBuffer.IsAvailable | src/flush_buffer.rs:54-57 | true iff sealed and flushing are clear and the offset is 0 |
| FlushBuffers.FlushBuffer.DataLen | src/flush_buffer.rs:296-302 | the bytes of the offset, rounded up to whole blocks and by less than one block |
| FlushBuffers.FlushBuffer.Examine | src/flush_buffer.rs:84-94 | what a loaded word allows: the two errors and the offset, in the order tested |
| FlushBuffers.FlushBuffer.Exchange | src/flush_buffer.rs:96-107 | succeeds iff the word is still the loaded one, and then reserves |
| FlushBuffers.FlushBuffer.ReserveSpace | src/flush_buffer.rs:78-108 | undisturbed, result and new word in every case; never a contention error |
| FlushBuffers.FlushBuffer.Write | src/flush_buffer.rs:172-177 | each byte of memory in the payload's range is the payload's, each other is as before |
| FlushBuffers.FlushBuffer.DecrementWriters | src/flush_buffer.rs:134-136 | returns the previous word and releases one writer |
| FlushBuffers.FlushBuffer.SetFlushInProgress | src/flush_buffer.rs:152-154 | returns the previous word and sets the flag |
| FlushBuffers.FlushBuffer.ClearFlushInProgress | src/flush_buffer.rs:160-163 | returns the previous word and clears the flag |
| FlushBuffers.FlushBuffer.Seal | src/flush_buffer.rs:192-199 | seals; succeeds iff it was not sealed before |
| FlushBuffers.FlushBuffer.ResetOffset | src/flush_buffer.rs:239-251 | the loop tries again after every word that others store in between, unless it is the word loaded, and ends by clearing the offset of the last one, keeping its writers and flags |
| RingHistory.InitOk | src/ring.rs:180-201 | a new ring of any size satisfies the invariant |
| RingHistory.KeepStep | src/ring.rs:219-476 | every step of every thread, and every completion, keeps the invariant |
| RingHistory.ReachedOk | src/ring.rs:219-476 | the invariant holds in every reachable state |
| RingTheorems.ReservationsTile | src/flush_buffer.rs:78-108 | the reservations of a buffer follow each other from 0 to its offset without gap, within 1 MiB, whatever stale words threads carry, also from earlier batches |
| RingTheorems.ReservationsApart | src/flush_buffer.rs:78-108 | no two reservations of a batch overlap |
| RingTheorems.WritersCounted | src/flush_buffer.rs:97-136 | the writer field is the number of threads holding an unreleased reservation; releases never borrow and reservations never carry |
| RingTheorems.NoLostFlush | src/ring.rs:226-291 | a sealed buffer nobody has claimed has an active writer, a sealer not done with its check, or a last writer about to claim |
| RingTheorems.QuietMeansDispatched | src/ring.rs:226-291 | when no thread is mid-operation, every sealed buffer has an outstanding write |
| RingTheorems.OneOwner | src/ring.rs:246-289 | a buffer is flushing iff exactly one party, a thread or one outstanding write, is responsible; also across failures and re-submissions |
| RingTheorems.ClaimedOnce | src/flush_buffer.rs:146-154 | the flush of each batch is claimed at most once over the run, exactly once if it was reported or its buffer moved on |
| RingTheorems.ResetDiscardsNothing | src/ring.rs:431-434 | at a reset no thread holds a reservation, and every byte was copied, written and reported |
| RingTheorems.DispatchSafe | src/ring.rs:245-289 | what is submitted is sealed, without writers, fully copied, at the range claimed for it and of the claimed length |
| RingTheorems.StepFrozen | src/ring.rs:332-343 | one step by anyone leaves bytes, word and address of a submitted buffer alone |
| RingTheorems.OutstandingFrozen | src/quik_io.rs:187-192 | over any run, as long as a write is outstanding its bytes, length and address stay |
| RingTheorems.ExtentsApart | src/ring.rs:236-238 | the ranges claimed by any two seals of a run are disjoint, padding included, despite rotations adding to the same counter |
| RingTheorems.RecordsDurable | src/ring.rs:439-476 | every completion message names file bytes equal to the payloads of its batch in reservation order; no batch is reported twice |
| RingTheorems.RecordsForever | src/ring.rs:439-476 | those bytes stay for the rest of the run |
| RingTheorems.AcceptedKept | src/ring.rs:270-293 | every accepted payload is in exactly one reported range, or still in the memory of the buffer that collects or flushes it |
| RingTheorems.AcceptedApart | src/ring.rs:270-293 | two accepted payloads never rely on the same reservation |
| RingProgress.RunsEnd | src/ring.rs:219-476 | in whatever order they step, the threads stop after a bounded number of steps unless something begins or completes |
| RingProgress.ComesToRest | src/ring.rs:219-476 | from every state, under all assumptions, the threads alone reach a state in which none is mid-operation |
| RingProgress.EverySealDispatched | src/ring.rs:226-291 | from every reached state the threads alone come to rest, and then every sealed buffer has an outstanding write |
| RingShape.OnlyReleaseAccepts | src/ring.rs:246-293 | a receipt is given exactly when a writer releases its reservation; the sealing branch gives none |
| RingAssumptions.ResetExactly | src/ring.rs:431-434 | from any state that satisfies the invariant, a reset lets an open buffer be flushed iff its sealer or last writer is still mid-way |
| RingEarlyDispatch.DispatchExactly | src/ring.rs:228-238 | from any state that satisfies the invariant, a dispatch leads, in some continuation that keeps to all assumptions, to a write or a completion message for another range than the one claimed iff the sealer has not stored the address and either the address found is not the one claimed or a reset is about to wipe it out |
| RingAssumptions.PublishExactly | src/ring.rs:431-434 | from any state that satisfies the invariant, a stored address can be wiped out again iff a reset of the buffer is between its two stores |
| RingLostRecords.GuardsExactly | src/ring.rs:219-476 | reported bytes can be overwritten under exactly the sets of assumptions that lack one of the three |
| RingLostRecords.DispatchGuardNeeded | src/ring.rs:228-238 | a concrete run that loses a reported range when dispatch may precede the address store |
| RingLostRecords.ResetGuardNeeded | src/ring.rs:245-247 | a concrete run that loses a reported range when a reset may overtake the sealer's check |
| RingLostRecords.PublishGuardNeeded | src/ring.rs:431-434 | a concrete run that loses a reported range when an address store may fall between the two stores of a reset |
| RingRotation.ScanCompleteExactly | src/ring.rs:381-402 | a scan finds an available buffer whenever there is one, iff the index counter does not wrap during it or the ring size divides 2^64 |
| RingRotation.RotationAlone | src/ring.rs:372-403 | an undisturbed rotation moves to a buffer that is unsealed, not flushing and empty exactly when there is one, to the first such in the order of the index counter, which advances by the number of buffers looked at; otherwise all have been looked at and current stays; nothing else changes |
| RingAlone.PutAlone | src/ring.rs:270-294 | undisturbed, a payload that fits an open buffer with room in the writer field is at the old offset of its memory, the offset has grown by its length, a receipt is given, and nothing else that is shared has changed |
| RingAlone.NoRoomAlone | src/flush_buffer.rs:84-94 | a sealed or flushing buffer is left alone; one that is too full also, but its thread goes on to seal |
| RingAlone.SealLostAlone | src/ring.rs:226-234 | only the first to seal goes on |
| RingAlone.MovedOnAlone | src/ring.rs:372-375 | a rotation that finds the ring moved on changes nothing |
| RingAlone.SealAlone | src/ring.rs:226-263 | undisturbed, the sealer claims the next whole blocks of the file for the buffer and stores where they start, moves the ring to the first open and empty buffer, books as many addresses again as the old buffer has bytes and gives the first to the new buffer unless it has one, and pushes the write if nobody is writing; every field of the ring afterwards, unless the index counter wraps during the scan and the ring size does not divide 2^64 |
| RingAlone.ReleaseAlone | src/ring.rs:273-293 | undisturbed, a writer is released and given its receipt; it pushes the buffer iff it was the last of a sealed one that is not flushing |
| RingAlone.CompletionAlone | src/ring.rs:466-473 | undisturbed, address and offset of the buffer are sent and its word and address are 0 |
| RingAlone.RetryAlone | src/ring.rs:458-464 | undisturbed, a failed write is pushed again as kept, and buffer and messages stay |
| RingAlone.FillAlone | src/ring.rs:180-201 | filled by one thread alone, a new ring holds the payloads one behind the other from the start of buffer 0 |
| RingAlone.FirstSeal | src/ring.rs:180-201 | the first payload that does not fit a new ring sends exactly those before it, padded, to the start of the file, and the ring moves to buffer 1 if there is one |
| BufferRings.BufferRing.constructor | src/ring.rs:180-201 | all buffers open and empty, current 0, index counter 1, address counter 0, nothing sent, an empty file: the initial protocol state |
| BufferRings.BufferRing.ReserveSpace | src/flush_buffer.rs:78-108 | under interference, this thread's steps are the load and, if the word allows it, the exchange; which of the three errors or which offset results from the words they met; and where the thread stands |
| BufferRings.BufferRing.Put | src/ring.rs:219-296 | this thread's steps are those of the outcome handed in, word for word: `PayloadPath`, `SealingPath`, or none; the message says that the buffer was flushed iff one of these steps pushed it; a reservation yields its receipt; the other errors are handed back |
| BufferRings.BufferRing.PutPayload | src/ring.rs:270-294 | copy and release; a last writer of a sealed buffer claims the flush, and if it is the first to, pushes this buffer at the length and address it loads; the answer is `SuccessfullWriteFlush` iff this call pushed the buffer, else `SuccessfullWrite` |
| BufferRings.BufferRing.PutSealing | src/ring.rs:226-263 | only the first to seal goes on: it claims and publishes a range of padded size, rotates, checks for writers, and claims and pushes if it saw none; the answer is `SuccessfullWriteFlush` iff this call pushed the buffer, else that it is sealed |
| BufferRings.BufferRing.RotateAfterSeal | src/ring.rs:372-403 | nothing if the ring has moved on; else looks at candidates in turn and swaps, books and stamps the first available one; `RingExhausted` exactly after as many looks in vain as there are buffers |
| BufferRings.BufferRing.Flush | src/ring.rs:332-343 | sets the flag again and pushes this buffer once |
| BufferRings.BufferRing.SubmitBuffer | src/quik_io.rs:321-330 | loads the length, then the address, then pushes a write of this buffer of just these, whole blocks long |
| BufferRings.BufferRing.ResetBuffer | src/ring.rs:431-434 | two steps of this thread: the word, then the address |
| BufferRings.BufferRing.HandleCompletion | src/ring.rs:450-474 | a write whose result is negative, which is one that failed, is taken and pushed again; a finished one is taken, its address and size are sent, and its buffer is reset |
| BufferRings.BufferRing.CheckCque | src/ring.rs:439-476 | everything found in the completion queue during the call is handled, in the order found: this thread's steps are those of taking each write once and sending it or pushing it again, and none for those of a sync; the call ends with the first look that finds nothing |
| BufferRings.BufferRing.Poll | src/quik_io.rs:406-420 | all that the queue holds when looked at is taken, in order |
| Durability.SentReadsBack | src/ring.rs:466-471 | what the receiver was told, read through the aligned path at any later time, is the payloads of one batch in reservation order |
| Durability.AcceptedReadsBack | src/ring.rs:270-293 | every accepted payload reads back on its own from its place in the reported range, or is still in its buffer |
| QuikIo.AlignDownIsPage | src/quik_io.rs:473-474 | the mask rounds down to the page; the rest is less than a page |
| QuikIo.AlignedLen | src/quik_io.rs:475-475 | whole pages that cover what is wanted and less than one page more |
| QuikIo.DeliversSlice | src/quik_io.rs:468-520 | a request of fewer than 2^32 bytes delivers the bytes of the file from the offset on, zeros past its end |
| QuikIo.ReadsSlicesExactly | src/quik_io.rs:483-487 | reading is slicing for every file iff the pages touched fit the 32-bit length of the request |
| QuikIo.SubmittedReadsBack | src/quik_io.rs:321-330 | any part of a written extent reads back as the bytes written |
| QuikIo.Store.Submit | src/quik_io.rs:193-235 | pushes the write and keeps it with the buffer, or with a full queue does neither; an error after the push takes neither back |
| QuikIo.Store.Retry | src/quik_io.rs:440-452 | pushes the kept write again, with the same three outcomes |
| QuikIo.Store.Completions | src/quik_io.rs:406-420 | the drain loop returns every completion, in order, and empties the queue |
| QuikIo.Store.Read | src/quik_io.rs:468-520 | result, destination and queue in every case, including when another completion is first in the queue and is taken for the answer while the read's own stays behind |
| WriterSystem.PackUnpack | examples/model.rs:264-296 | the completion word is slot times 2^32 plus length, and loses nothing below 2^32 |
| WriterSteps.KeepStep | examples/model.rs:161-307 | every step of every writer, and every completed write, keeps the invariant |
| WriterTheorems.ReachedOk | examples/model.rs:161-307 | the invariant holds in every reachable state |
| WriterTheorems.PendingIsInFlight | examples/model.rs:117-137 | the head slot is open between operations and `pending` is the number of slots in flight |
| WriterTheorems.OneWriteEach | examples/model.rs:250-307 | a slot is in flight iff exactly one outstanding write or unread completion is for it |
| WriterTheorems.InFlightFrozen | examples/model.rs:250-307 | over any run, bytes, length and offset of a slot in flight stay until it is reaped |
| WriterTheorems.RangesTile | examples/model.rs:256-262 | the ranges of all writers, in flight, completed or returned, tile the file from 0 to the counter |
| WriterReadback.ReadBackIsAppended | examples/model.rs:391-406 | reading a finished writer's ranges in disk order gives exactly what it appended |
| WriterReadback.AllFinished | examples/model.rs:202-217 | once all have finished, sealed lengths, counter and bytes appended agree, and all ranges in disk order are the file |
| RingWriters.RingWriter.constructor | examples/model.rs:143-157 | a new writer has four open slots of 1 MiB, head and cursor 0, nothing pending and nothing claimed |
| RingWriters.RingWriter.Append | examples/model.rs:161-185 | iff cursor and payload exceed 1 MiB together, one range of cursor bytes is claimed and the payload starts the next slot; else it goes behind what the open slot holds and nothing is claimed |
| RingWriters.RingWriter.Flush | examples/model.rs:190-198 | submits what the head holds, as one range of just that length, and leaves an empty head; does nothing with an empty one |
| RingWriters.RingWriter.Finish | examples/model.rs:202-217 | all slots open, nothing pending, one more range claimed iff the head held anything, every claimed range returned exactly once, and the ranges sorted by offset read back as what was appended |
| RingWriters.WriteMessages | examples/model.rs:343-367 | a thread that appends messages and finishes gets ranges of at most 1 MiB whose lengths add up to theirs, no two neighbours short enough for one slot; messages that fit one slot together come back as one range of their total length; the ranges read back as the messages |
| RingWriters.RingWriter.SealAndAdvance | examples/model.rs:223-243 | the wait loop ends (fewer writes pending after each wait), and the head is the next slot, open and empty |
| RingWriters.RingWriter.SubmitSlot | examples/model.rs:250-289 | this writer takes exactly one step, the claim and submission of the head slot |
| RingWriters.RingWriter.ReapOne | examples/model.rs:293-305 | the range recorded is the offset and length the slot was sealed with |
| RingWriters.RingWriter.ReapAll | examples/model.rs:292-307 | empties the queue, with one fewer pending for each completion |
| RingWriters.RingWriter.SubmitAndWait | examples/model.rs:211-235 | returns with at least the completions asked for |

## Left out

- Scheduling: the three assumptions above are not proved of the code, which does not enforce them.
- Memory model: accesses are sequentially consistent; the Acquire and Release choices are not modelled.
- io_uring: kernel ordering flags, `sync_data`, `wait_for_all`, `f_sync`, locks and the submission queue's length are not modelled; writes finish or fail in any order, and in `BufferRings` the submission queue is never full.
- Completion: a write takes effect on the file when its completion is taken; its bytes cannot change in between.
- Short transfers: a completed write is taken to have written everything, and a completed read to have read everything up to the end of the file, as the code does not look at the counts; a kernel that caps one transfer near 2^31 bytes would lower the bound of `QuikIo.ReadsSlicesExactly`.
- Reads beside flushes: `QuikIo.Store.Read` says what happens when a read takes another completion for its own; a flush whose completion is lost that way is not part of the ring model.
- Address counter: unbounded here; the code's wraps at 2^64 bytes written.
- Alignment: disk addresses are not claimed to be multiples of 4 KiB, since rotation adds an unpadded size (src/ring.rs:375).
- Padding: what follows the last payload byte of a written extent is not specified; a reset does not clear memory.
- Buffer size: fixed at 1 MiB, because reservations are bounded by that constant and not by the allocation (src/flush_buffer.rs:92).
- Configuration: automatic flush and rotation, a store and a receiver are present; manual mode resets a buffer instead of keeping it, so nothing is claimed there.
- `increment_offset`, `is_sealed`, `un_sealed`, `increment_writers`, `set_address`: single-threaded or with side effects outside the protocol.
- `flush_current`: does not wait for writers and claims an unpadded length, so dispatch safety and disjointness do not cover it.
- Identity: a buffer is its position, and the number in its completions is the position plus one, in place of addresses in memory.
- BufferRings.BufferRing.CheckCque: the number of polls in one call is bounded by a parameter, where the code polls until it finds nothing.
- BufferRings.BufferRing.Interfere, BufferRings.BufferRing.Arrive: stand for other threads and the kernel; a completion a thread has taken is assumed not to be taken by another.
- RingWriters.RingWriter.Interfere: stands for the other writers' own threads, so a call on one writer does not promise that another writer object, whose thread it lets run, is still where it was.
- RingWriters.RingWriter.SubmitSlot: claim and push are one step, as nobody else sees a writer's own queue; a full submission queue does not occur with four slots.
- RingWriters.RingWriter.Append: payloads of more than 1 MiB, which the code would copy past the end of the slot, are excluded, as its documentation demands.
- QuikIo.Store.Read: a read of nothing at a page boundary asks the allocator for zero bytes, which is undefined in the code; lengths near the end of the address space are not bounded.
- Logging, option builders, the examples' `main` functions, `examples/log.rs` and `examples/o_direct.rs`: plumbing or usage only.
