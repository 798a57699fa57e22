# The p8 delivery pipeline, modelled and proved

p8 records logs and metrics on many threads and hands them to one worker that
writes them to a sink. This project models that path in Dafny and proves what it
keeps and what it promises, for a 64-bit little-endian host that is not Windows:
data-buffer header 24 bytes, log item header 40, metric item 24, fixed arguments
8 bytes, `long double` 16, buffers of 8192 bytes.

The model has two levels. At the byte level, records are serialized in place
into linked buffers, and a decoder reads them back:

- `Wire`: little-endian fields, copying into memory, buffer and item headers,
  and the reader's walk by `mu_size`.
- `Layout`: where each piece of a record lands, with the contents left out. It
  decides when the trailing pad fits.
- `Records`: arguments, attributes and whole records as values, with their
  encodings and decoders.
- `LogWriter`: class `TlsWriter` over arrays. It covers header, arguments,
  attributes, rotation, back-patching, padding, rollback, `pull`, `core_push`.
- `Metrics`: `emit`, on the same buffer chain.
- `Format`: `parse_format_string`.
- `Service`, `ServiceStream`, `Registration`: descriptor entries, the buffers
  they are packed into, and the registries that produce them. `Doubles` is the
  comparison of a metric's bounds.

At the system level, every critical section and every access to an atomic is one
step, and steps of different threads interleave freely:

- `Pool` is the buffer pool as a state machine. `BufferPool` is the pool's own
  data structure (linked waiter nodes, lists, counters), proved to take exactly
  those steps.
- `Budget` is the compare-and-swap loop of the memory budget, for any number of
  threads. `SharedBudget` puts any number of pools on one budget, from the first
  reservation to the destructor, and proves each of them to be a pool of `Pool`.
- `Wake` is the debounced wake-up of the worker.
- `Writers` is the intrusive list of live writers and the drop counters.
- `System` is the whole pipeline: writers, registering threads, pool and worker.
  `Ownership`, `Delivery`, `Chains`, `Shares` and `Descriptors` prove its
  invariants and `Counterexamples` holds the runs that show why two conditions are needed.

Contents of buffers appear at the system level as pieces of records; the byte
level says what those pieces are. Reading clocks, hashing `file` and `line`,
allocation and the decision whether a tail has room are parameters or choices of
the step. A blocking wait inside `send` is the parameters `handed` (what the wait
ended with) and `pulled` (whether the worker drained this writer meanwhile).

## Where the code and its comments differ

- The pad. `engine/p8_log.cpp:647-651` says the pad always fits. It need not:
  `P8_ENSURE_SPACE` can abandon a few bytes at the end of a buffer, and the end
  offset then no longer agrees with the logical size modulo 8.
  `Records.PadOverrunExample` is a call whose pad leaves the buffer, and
  `Records.UnalignedStartExample` one that does so without abandoning anything,
  because the call before it left the position unaligned. `Layout.PadFitsIff` is
  the exact condition from any position. Records that rotate only at multiples of
  8 are safe (`Layout.AlignedRun`), calls with fixed-size arguments only are among
  them (`Records.FixedCallsAlign`).
- The rollback. `engine/p8_log.cpp:682-684` says earlier records stay intact. The
  rollback also releases the buffer the record began in, with whatever else it
  held. `LogWriter.TlsWriter.Send` says exactly what is lost and which records
  stay readable. At the system level `Counterexamples.BrokenChain` is a run that
  leaves a FRAGMENT buffer without its continuation; `Chains.DiscardBreaksIff`
  says exactly when a rollback does that, and `Chains.TornIff` that nothing else
  does and nothing repairs it.
- Descriptor order. Service buffers are taken before the writers are pulled, so
  data can precede its descriptor by one cycle
  (`Counterexamples.DataBeforeDescriptor`), and by no more
  (`Descriptors.AtMostOneCycleLate`). A descriptor comes first exactly if it was
  registered before the cycle took the service list and found room there
  (`Descriptors.PieceAfterDescriptorIff`).
- Long service strings keep `len % 1024` bytes, so a string of 1024 bytes
  vanishes (`Service.CutIff`, `Service.CutExample`).
- A service entry too large for a buffer is dropped without being counted in
  `mu_dropped_svc`; only exhaustion is counted (`ServiceStream.Stream.Serialize`).
- Module ids. `engine/p8_core.cpp:787` cuts a module's row to 16 bits with no
  check, so with more than 65536 modules two of them share an id: row 65536 gets
  id 0 like row 0. `Registration.Registry.ModulesInOrderIff` says that module ids
  are in order if and only if there are at most 65536.
- In `%I64s` and `%I32s` the digits of the prefix also set the has-width flag
  (`Format.ConversionMeans`).
- A metric whose minimum or maximum is not a number is in conflict with its own
  description when it is registered again, because the bounds are compared with
  `==` (`Registration.SameMetricIff`). Attributes are not compared at all.

## Model

| member | source | states |
|---|---|---|
| Wire.ReadBackLE | api/p8_protocol.h:167-175 | a value that fits k bytes survives being stored in a k-byte field and read back |
| Wire.LowByteFirst | api/p8_protocol.h:167-175 | byte i of a field has weight 256 to the i: the host is little-endian |
| Wire.Poke | engine/p8_tls_writer.cpp:102 | memcpy: the destination range holds the source, every other byte is untouched |
| Wire.FlattenPatch | engine/p8_log.cpp:653-658 | overwriting item bytes inside any buffer of a chain overwrites exactly those bytes of the stream a reader rebuilds |
| Wire.FlattenConcat | tests/regression/p8_log_content_test.cpp:181-199 | the rebuilt stream of two buffer lists is the two streams end to end |
| Wire.ReadItemHdr | tests/regression/p8_log_content_test.cpp:204-205 | memory that holds a log item header field by field decodes to that header, whatever its padding bytes |
| Layout.PlaceConserves | engine/p8_tls_writer.cpp:76-110 | placing a piece moves the cursor by its size plus the tails abandoned at rotations; a splittable piece abandons nothing and takes no buffer it leaves empty, any other abandons a tail only where it does not fit |
| Layout.PlaceAllConserves | engine/p8_tls_writer.hpp:94-107 | the same over a whole record |
| Layout.PadFitsIff | engine/p8_log.cpp:652-663 | from any start, the pad leaves the buffer if and only if the record stops within 8 bytes of the end and its start plus the abandoned tails is 1 up to the pad modulo 8 |
| Layout.EndAlignment | engine/p8_log.cpp:652-663 | a record ends as far from a multiple of 8 as its start plus the tails it abandoned, whatever it holds |
| Layout.AlignedRecord | engine/p8_log.cpp:647-663 | from an aligned start the next item starts aligned if and only if the abandoned tails are a multiple of 8, and then the pad fits |
| Layout.AlignedRun | engine/p8_log.cpp:404-411 | over any run of records, pulls and rollbacks whose records rotate at multiples of 8, every item starts aligned, no header straddles buffers and every pad fits |
| Layout.AlignedNext | engine/p8_log.cpp:647-678 | a record that abandons a multiple of 8, sent at an aligned position, fits and leaves the position aligned |
| Records.ArgsRoundTrip | engine/p8_log.cpp:481-582 | given the argument kinds, a reader recovers every argument, strings cut to their first 65535 bytes |
| Records.AttrsRoundTrip | engine/p8_log.cpp:586-645 | given the count and the registry, a reader recovers every attribute whatever padding follows |
| Records.ResolvedAt | engine/p8_log.cpp:587-644 | the attribute sent for an entry with a registered id stands behind those of the earlier such entries: its text if the attribute is a string, else its eight bytes |
| Records.AttrsSeen | engine/p8_log.cpp:586-645 | told of k attributes, a reader of the encoded entries sees the first k with a registered id, in order, text of string attributes cut to 65535 bytes, eight bytes of the others |
| Records.ResolvedFit | engine/p8_log.cpp:591-606 | attributes that pass the registry check are well formed, agree with their registered kind and never need more than a buffer |
| Records.HeaderDone | engine/p8_log.cpp:462-479 | the header as drafted, once its size fields are patched in, holds the record's header |
| Records.BeginsMore | engine/p8_log.cpp:660-668 | bytes behind a stream of items take nothing from it, and an encoded item put right behind it joins it |
| Records.BeginsCut | engine/p8_log.cpp:689-695 | cutting the stream anywhere keeps the items that are whole |
| Records.WholeLongest | engine/p8_log.cpp:689-695 | those are the longest run of leading items that fits |
| Records.FixedCallsAlign | engine/p8_log.cpp:545-579 | a call with 8- and 16-byte arguments only and no known attribute, sent at an aligned position, abandons multiples of 8 however many buffers it takes: its pad fits and the next item is aligned |
| Records.PadOverrunExample | engine/p8_log.cpp:647-658 | a concrete call, two strings around an integer sent into an empty buffer, whose pad ends past the buffer |
| Records.UnalignedStartExample | engine/p8_log.cpp:647-663 | two concrete calls: the first leaves the position at 35, the second rotates nowhere and abandons nothing and its pad still ends past the buffer |
| Records.StreamRoundTrip | tests/regression/p8_log_content_test.cpp:201-229 | walking a stream by mu_size yields the items it begins with, in order, same header, arguments and attributes, and nothing more if it ends with them |
| Records.SizeLimitIff | engine/p8_log.cpp:656-657 | an item is read back if and only if its padded size fits the 16-bit size field |
| Records.BodySize | engine/p8_log.cpp:653-654 | the size of a record by its layout is the size of its encoding |
| Records.RecordRoundTrip | tests/regression/p8_log_content_test.cpp:168-232 | from a decoded item back to the call: header fields, every argument with strings cut to 65535 bytes, and an attribute for every entry with a registered id, the count taken modulo 256 and as many read as it says; within the 16-bit size |
| LogWriter.Core.AcquireBuffer | engine/p8_core.cpp:1057-1101 | the oldest free buffer, else a new one within the budget; null exactly when neither is to be had |
| LogWriter.Core.AcquireWait | engine/p8_core.cpp:1103-1109 | the same, else whatever the wait ends with |
| LogWriter.Core.ReleaseBuffer | engine/p8_core.cpp:1112-1121 | the buffer is no longer on loan and can be handed out again, behind those that were free |
| LogWriter.TlsWriter.constructor | engine/p8_tls_writer.cpp:11-22 | a new writer holds nothing and has produced nothing |
| LogWriter.TlsWriter.RotateFragmentBuffer | engine/p8_tls_writer.cpp:40-73 | the tail joins the chain flagged, sized and stamped, its bytes stay the stream's, a fresh tail follows unless the pool is exhausted, and no other holder gains or loses a buffer |
| LogWriter.TlsWriter.EnsureSpace | engine/p8_tls_writer.hpp:94-107 | afterwards the needed bytes fit, and the stream written so far is unchanged |
| LogWriter.TlsWriter.CopyFragmented | engine/p8_tls_writer.cpp:76-110 | the stream grows by exactly the source bytes, split over as many buffers as the layout says |
| LogWriter.TlsWriter.WriteArgs | engine/p8_log.cpp:481-584 | the stream grows by the encoded arguments, the counter is their size, and failure means the pool ran out |
| LogWriter.TlsWriter.WriteAttrs | engine/p8_log.cpp:586-645 | the stream grows by the encoding of one attribute for each registered entry (`Records.ResolvedAt`), and the count is theirs |
| LogWriter.TlsWriter.WriteHeader | engine/p8_log.cpp:462-479 | the stream grows by a drafted header |
| LogWriter.TlsWriter.Patch | engine/p8_log.cpp:584 | rewriting header bytes works wherever the header's buffer is by now, and changes nothing else of the stream |
| LogWriter.TlsWriter.PatchSizes | engine/p8_log.cpp:655-657 | the header in the stream is the patched one and all bytes around it stay |
| LogWriter.TlsWriter.EndRecord | engine/p8_log.cpp:660-678 | the pad is stepped over, the size field agrees with the write position, and a nearly full tail is parked |
| LogWriter.TlsWriter.BeginRecord | engine/p8_log.cpp:401-437 | a tail with enough room is kept as it is, otherwise the record starts behind the header of another buffer; nothing produced is lost while the writer waits unlocked; failure only when nothing is to be had |
| LogWriter.TlsWriter.Discard | engine/p8_log.cpp:689-697 | the chain is exactly its value at the mark, every later buffer is back with the core, newest first, one drop is counted |
| LogWriter.TlsWriter.Undo | engine/p8_log.cpp:682-697 | what is lost of earlier output is exactly what shared the buffer the record began in, nothing if that buffer was fresh; the records that stay readable are the longest run of whole ones in what is left |
| LogWriter.TlsWriter.Overrun | engine/p8_log.cpp:652-668 | when the pad does not fit, the record stands whole behind the stream, its size fields and the buffer header are stamped, and the tail is kept |
| LogWriter.TlsWriter.Serialize | engine/p8_log.cpp:457-680 | accepted or overrun if and only if the core has as many buffers as the layout needs; accepted if and only if the pad fits; then the stream grew by an encoding of the record and exactly the buffers that the record fills are flagged |
| LogWriter.TlsWriter.Send | engine/p8_log.cpp:355-698 | the whole call: when each outcome occurs, what each does to the stream, the readable records, the chain, the drop count, the write position and the buffers of others; an aligned position stays aligned while records abandon multiples of 8 |
| LogWriter.TlsWriter.Pull | engine/p8_tls_writer.cpp:139-156 | closed buffers first, then the tail, appended to the list and to the contents handed over; the writer is left empty and its output unchanged |
| LogWriter.TlsWriter.CorePush | engine/p8_tls_writer.cpp:113-136 | the same for a dying writer |
| LogWriter.TlsWriter.ReadBack | tests/regression/p8_log_content_test.cpp:168-232 | after any calls, walking everything the writer produced yields the kept records first, in order, and exactly those while the stream is intact; Send says which accepted records are kept |
| LogWriter.TlsWriter.AllLabelled | engine/p8_log.cpp:428-436 | every buffer a writer has handed over or holds carries its packet type and its thread |
| LogWriter.ReadBufHdr | tests/regression/p8_log_content_test.cpp:184-188 | the header of a buffer decodes to its packet type, flags, size, thread and both times |
| LogWriter.FreshBuffer | engine/p8_log.cpp:428-436 | a new tail is labelled with packet type and thread, has both times, an empty payload and no FRAGMENT flag |
| LogWriter.ClosedBuffer | engine/p8_tls_writer.cpp:45-47 | stamping flags, size and stop time leaves the item bytes, the label and the start time alone |
| Metrics.MtkWriter.constructor | engine/p8_mtk.cpp:9-12 | a new metric writer has recorded nothing and marks its buffers as metrics |
| Metrics.MtkWriter.Append | engine/p8_mtk.cpp:79-105 | one sample more on the stream, never split; a full buffer is parked |
| Metrics.MtkWriter.Emit | engine/p8_mtk.cpp:21-108 | false exactly for an unregistered id or a shutdown with nothing to be had; only the latter is a drop; every true call is on the stream |
| Metrics.MtkWriter.Marked | engine/p8_mtk.cpp:65-74 | every buffer handed over or held has packet type 3 and the writer's thread |
| Metrics.SamplesRoundTrip | tests/regression/p8_mtk_content_test.cpp:99-110 | the walk recovers every sample and the stream is 24 bytes a sample |
| Metrics.BuffersRoundTrip | tests/regression/p8_mtk_content_test.cpp:80-111 | walking every captured buffer on its own recovers all samples, because none is split |
| Metrics.MtkWriter.ReadBack | tests/regression/p8_mtk_content_test.cpp:64-114 | walking each buffer alone, those handed over and those still held, yields every sample emitted, in order |
| Format.FindPrefix | engine/p8_log.cpp:55-69 | on a prefix character the table search always succeeds and finds the longest prefix |
| Format.ParseFormat | engine/p8_log.cpp:72-346 | the loop ends and returns the first max arguments of the recursive tokenizer, which gives every format the meaning of the grammar (`Format.EveryFormat`) |
| Format.PlainConcat | engine/p8_log.cpp:84-345 | parsing distributes over concatenation at every point outside a conversion |
| Format.GrammarRoundTrip | engine/p8_log.cpp:72-346 | every format of the grammar parses to its meaning: an int for every star and one argument a conversion, by the text of its last prefix, its letter and whether a star or digit stands in it |
| Format.EveryFormat | engine/p8_log.cpp:72-346 | every string whatever is spelled by pieces of the grammar, with one more percent sign if it stops inside a conversion, and parses to their meaning |
| Format.ConversionMeans | engine/p8_log.cpp:127-321 | a percent sign, any flags, digits and stars, any prefix and any letter parse to an int for each star and the argument of the letter: its kind by letter and prefix text, its size, and for strings the width flag |
| Format.Converted | engine/p8_log.cpp:127-321 | for each kind, exactly the letters and prefixes that give it: LDOUBLE only for reals behind L, INT64 for integers behind ll, I64, l, I, z or t, and so on; 16 bytes only for LDOUBLE |
| Format.ReadByDescriptor | engine/p8_log.cpp:481-582 | a reader that has only the descriptor recovers every argument of a call that agrees with it, strings cut to 65535 bytes |
| Format.FixedArgsSize | engine/p8_core.cpp:1574-1583 | the fixed size is the sum over non-string arguments |
| Format.BytesWritten | engine/p8_log.cpp:481-582 | send writes the fixed size plus 2 and the length of every string |
| Format.ParsedArgsValid | engine/p8_log.cpp:545-579 | arguments that agree with a parsed format are 8 or 16 bytes or strings, as the serializer needs |
| Service.CutIff | engine/p8_core.cpp:1357 | a service string survives if and only if it is shorter than 1024 bytes |
| Service.CutExample | engine/p8_core.cpp:1357 | a string of exactly 1024 bytes disappears |
| Service.EntryAligned | engine/p8_core.cpp:1360 | every entry is a multiple of 8 bytes with less than 8 of padding |
| Service.SizeNeverTruncated | engine/p8_core.cpp:1371 | an entry that fits a buffer announces its exact size |
| Service.EntryRoundTrip | engine/p8_core.cpp:1349-1544 | each kind of entry decodes to its descriptor, strings cut as above |
| Service.LogEntryRead | engine/p8_core.cpp:1387-1447 | a log descriptor comes back with its line and hash, each string's first length-modulo-1024 bytes, and its arguments, the first 32 if there are more |
| Service.MtkEntryRead | engine/p8_core.cpp:1485-1544 | a metric comes back with its id, bounds, flags and count, its strings cut likewise, and its attribute blob followed by fewer than eight zero bytes |
| Service.EntryExactIff | engine/p8_core.cpp:1349-1544 | an entry is marked 4 and with its type, and decodes to the very descriptor registered if and only if all strings are shorter than 1024 bytes, there are at most 32 arguments and a metric's entry needs no padding |
| Service.WalkStream | tests/regression/p8_svc_serialize_test.cpp:25-54 | the walk over buffers of whole entries finds every entry once, in order |
| Service.ReadNameBack | tests/regression/p8_svc_serialize_test.cpp:56-65 | the NUL-terminated name is read back |
| ServiceStream.Stream.AcquireNew | engine/p8_core.cpp:1284-1310 | a new empty buffer at the end of the list, or one counted drop and nothing changed |
| ServiceStream.Stream.Reserve | engine/p8_core.cpp:1314-1346 | zeroed room in one buffer behind everything already there, in the buffer in use whenever it has room; refused exactly when too large or when a needed buffer is not to be had |
| ServiceStream.Stream.Fill | engine/p8_core.cpp:1401-1445 | copying header and parts one after the other into zeroed room gives the entry, and nothing before it changes |
| ServiceStream.Stream.Serialize | engine/p8_core.cpp:1349-1544 | the stream gains exactly this descriptor or nothing; when it is dropped and when the drop is counted |
| ServiceStream.Stream.Flush | engine/p8_core.cpp:501-516 | the sink gets every pending buffer in order and every buffer goes back, in the same order |
| ServiceStream.Stream.ReadBack | tests/regression/p8_svc_serialize_test.cpp:25-54 | the walk over delivered and pending buffers finds one entry for each descriptor that was not dropped, in order |
| Registration.Registry.AttrRegister | engine/p8_core.cpp:648-698 | a known name gives its id or a type error, a new one the next id and exactly one offered descriptor; every error case |
| Registration.Registry.RegisterModule | engine/p8_core.cpp:745-801 | a known name only refreshes the verbosity, a new one is offered once with its row cut to 16 bits |
| Registration.Registry.RegisterMtk | engine/p8_core.cpp:866-991 | a known name gives its id exactly if the definition is the same, else a conflict; a new one is offered once, with the attributes a reader is to see |
| Registration.SameMetricIff | engine/p8_core.cpp:890-899 | a definition is the same if and only if flag, texts and bounds are, bounds compared as numbers; a definition agrees with the row it made if and only if neither bound is not-a-number |
| Doubles.SameDoubleIff | engine/p8_core.cpp:891 | two doubles are equal if and only if neither lies above infinity below the sign bit and they have the same bits or both are zero there |
| Registration.Registry.EncodeAttrBlob | engine/p8_core.cpp:1000-1054 | a reader of the blob sees the first 255 entries with a registered id, in order, texts of string attributes and eight bytes of the others |
| Registration.Registry.ResolveLogDesc | engine/p8_core.cpp:1547-1593 | one descriptor a hash, with the texts given and the arguments its format parses to |
| Registration.Registry.IdsInOrder | engine/p8_core.cpp:679-695 | whatever was dropped, ids of each kind appear on the stream in increasing order; modules up to 65536 |
| Registration.Registry.ModulesInOrderIff | engine/p8_core.cpp:787-797 | module ids appear in increasing order, whatever is dropped, if and only if there are at most 65536 modules, and so does the actual stream when nothing was dropped; beyond that, the differently named modules of rows 0 and 65536 are both sent as id 0 |
| Registration.Registry.Recovered | engine/p8_core.cpp:1284-1544 | the walk over the delivered and pending buffers decodes to one descriptor for each that found room, in order: the intact ones and no others as they were registered, log descriptors with their first 32 arguments, over-long strings cut |
| Registration.Registry.NothingDropped | engine/p8_core.cpp:1284-1544 | with nothing dropped the walk decodes to everything that was registered, the intact descriptors unchanged |
| Registration.Registry.MetricTags | engine/p8_core.cpp:1000-1054 | the blob in a metric's entry, padding included, decodes to the attributes encoded for it, also after more attributes are registered |
| Registration.PickedInOrder | engine/p8_core.cpp:1360-1366 | dropping entries keeps the order of ids |
| Pool.InitKeeps | engine/p8_buffer_pool.cpp:48-83 | filling an idle pool keeps every invariant |
| Pool.InitAdds | engine/p8_buffer_pool.cpp:48-83 | filling adds new buffers in order until there are as many as asked for, the budget is used up, or an allocation fails; the first that fails ends it |
| Pool.StepKeeps | engine/p8_buffer_pool.cpp:91-295 | every critical section and every move of a blocked thread keeps every invariant |
| Pool.RunKeeps | engine/p8_buffer_pool.cpp:91-295 | so does every run |
| Pool.StrictFifo | engine/p8_buffer_pool.cpp:154-169 | hand-off order is arrival order, the queue is exactly the unserved, and nobody waits while a buffer is free |
| Pool.NoLostWakeup | engine/p8_buffer_pool.cpp:194-244 | a served waiter is never asleep; after shutdown nobody is unserved |
| Pool.ShutdownIsFinal | engine/p8_buffer_pool.cpp:218-244 | from the shutdown on, whatever follows, the pool stays stopped, everyone who ever waited is served or refused and awake, and nobody waits again |
| Pool.ServedOnce | engine/p8_buffer_pool.cpp:201-214 | a hand-off or refusal is never changed by a later step |
| Pool.OnePlace | engine/p8_buffer_pool.cpp:91-116 | an allocated buffer is free, in one waiter's slot or with one caller |
| Pool.OvertakesIff | engine/p8_buffer_pool.cpp:91-116 | with waiters queued, a newcomer gets a buffer if and only if the budget has room and the allocation succeeds |
| Pool.NoOvertaking | engine/p8_buffer_pool.cpp:135-173 | in runs without failed allocation or outside release nobody is overtaken |
| Pool.OvertakenExample | engine/p8_buffer_pool.cpp:100-108 | one failed allocation is enough to be overtaken |
| Pool.BudgetKept | engine/p8_buffer_pool.cpp:93-113 | over any run, allocated plus still allowed buffers change by exactly what other users of the budget gave back less what they took |
| Pool.RecycleSkipsNull | engine/p8_buffer_pool.cpp:281-284 | null entries of a batch have no effect |
| Pool.BatchServes | engine/p8_buffer_pool.cpp:268-295 | a batch serves the oldest waiters, buffers in list order, as many as there are of both, and frees the rest in order |
| Pool.GivenBackLast | engine/p8_buffer_pool.cpp:115-295 | while nobody waits, buffers given back are handed out again behind those that were free, in the order in which they were given back |
| Pool.OldestFirst | engine/p8_buffer_pool.cpp:115 | free buffers are handed out oldest first |
| Pool.ShardBalance | engine/p8_buffer_pool.cpp:154-155 | every shard holds between w/64 rounded down and rounded up of w queued waiters, across the 32-bit wrap |
| Pool.BarrierIsSafe | engine/p8_buffer_pool.cpp:17-35 | once stopped with mu_inflight zero no thread that waited touches the pool again |
| BufferPool.BufferPool.Init | engine/p8_buffer_pool.cpp:48-83 | the loop takes the abstract step; it adds as many buffers as asked for or as the budget has room for, unless an allocation fails, and then those made before it |
| BufferPool.BufferPool.AcquireNoLock | engine/p8_buffer_pool.cpp:91-116 | state and result are those of the abstract step |
| BufferPool.BufferPool.AcquireWait | engine/p8_buffer_pool.cpp:135-181 | a buffer, a refusal, or the node linked behind the tail, as the abstract step says |
| BufferPool.BufferPool.Look | engine/p8_buffer_pool.cpp:181-183 | the woken thread reads only its own node |
| BufferPool.BufferPool.Exit | engine/p8_buffer_pool.cpp:185-188 | the last access lowers mu_inflight |
| BufferPool.BufferPool.TryHandoff | engine/p8_buffer_pool.cpp:194-215 | unlinks and serves the oldest node, or says that there is none |
| BufferPool.BufferPool.NotifyAll | engine/p8_buffer_pool.cpp:257-260 | the sleepers of that shard, and no others, will run again |
| BufferPool.BufferPool.Recycle | engine/p8_buffer_pool.cpp:247-265 | the abstract step for one buffer: the oldest waiter is served and its own shard notified, else the buffer is freed |
| BufferPool.BufferPool.RecycleBatch | engine/p8_buffer_pool.cpp:268-295 | the loop equals as many single recycles |
| BufferPool.BufferPool.StopWaiters | engine/p8_buffer_pool.cpp:218-244 | everyone queued is refused, the links are gone, and notifying the shards one by one wakes them all |
| Budget.NeverOverCommitted | engine/p8_memory_budget.cpp:10-35 | in every interleaving used is the sum of live reservations, never above the cap, and every refusal saw too little room |
| Budget.SeenDuringCall | engine/p8_memory_budget.cpp:13-21 | the value a thread acts on was loaded after its call began |
| Budget.FailureMeansProgress | engine/p8_memory_budget.cpp:21-27 | a swap that fails for a reason means another thread changed the budget |
| Budget.MemoryBudget.TryReserve | engine/p8_memory_budget.cpp:10-29 | whatever other threads do between its accesses and however often the swap fails spuriously, the loop reserves on top of the current value within the cap, or refuses having seen a value with too little room |
| Budget.MemoryBudget.Release | engine/p8_memory_budget.cpp:32-35 | gives the bytes back |
| SharedBudget.StepKeeps | engine/p8_buffer_pool.cpp:20-116 | every step of every pool, allocation failure and destruction included, keeps the books of pools and budget in agreement |
| SharedBudget.BudgetConserved | engine/p8_buffer_pool.cpp:93-113 | in every reachable state of any number of pools, used is exactly the sum of buffer size times buffers allocated, plus bytes reserved and not yet listed, and never above the cap |
| SharedBudget.AllReturned | engine/p8_buffer_pool.cpp:20-45 | when every pool is destroyed the whole budget is free |
| SharedBudget.OwnRoom | engine/p8_buffer_pool.cpp:93-113 | reserving, failing and giving back leave a pool's own room as it was; listing a new buffer costs exactly one |
| SharedBudget.MovesAsPool | engine/p8_buffer_pool.cpp:48-188 | each step looks to each pool like a step of `Pool`, other pools' steps like its move of the others, with the room derived from the budget |
| SharedBudget.PoolOfMany | engine/p8_buffer_pool.cpp:48-295 | so every pool of a shared budget runs as a pool of `Pool` in every run, and all that is proved there holds of it |
| SharedBudget.HolderGoesOn | engine/p8_memory_budget.cpp:10-29 | the holder of a pool's mutex is never stuck on the budget: refuse or swap, never both; both outcomes of an allocation; the destructor's return |
| SharedBudget.FillCompletes | engine/p8_buffer_pool.cpp:48-83 | whatever other pools do to the budget meanwhile, a fill with n buffers that is over has added exactly n, unless the budget refused one or an allocation failed |
| Wake.SuppressedIsServed | engine/p8_core.cpp:575-590 | after a suppressed notification the worker cannot come to rest without a clear and then a flush |
| Wake.SetIsServed | engine/p8_core.cpp:486-590 | after a dying writer or a claimer has set the event, wherever the worker is, it cannot come to rest without a clear and then a flush |
| Wake.NeverStuck | engine/p8_core.cpp:486-557 | while a wake is pending a claimer or the worker can act without waiting for the timeout |
| Wake.NoStorm | engine/p8_core.cpp:575-590 | the event is set at most once a clear, plus one |
| Writers.Core.Register | engine/p8_core.cpp:593-604 | the list gains the writer in front, links and count consistent |
| Writers.Core.Unregister | engine/p8_core.cpp:607-625 | the list loses exactly this writer |
| Writers.Core.PollDropped | engine/p8_core.cpp:1206-1230 | the core's log, metric and trace counters each grow by the sum of that counter over all live writers, whose counters are reset |
| Writers.Core.Retire | engine/p8_tls_writer.cpp:25-37 | the core's log, metric and trace counters each grow by the dying writer's own, which are reset, and the writer leaves the list |
| Writers.Writer.PullDropped | engine/p8_tls_writer.cpp:159-167 | takes the counters and resets them |
| Writers.DropsConserved | engine/p8_core.cpp:1206-1230 | in every interleaving core totals, the worker's partial sum, counts in a destructor's hands and live counters add up to all drops recorded |
| System.LocalFrame | engine/p8_log.cpp:398-698 | a writer's own steps touch only the writer and the pool |
| Ownership.StepKeeps | engine/p8_core.cpp:464-566 | every step of the pipeline keeps the ownership invariant |
| Ownership.BuffersConserved | engine/p8_core.cpp:1112-1180 | in every reachable state each allocated buffer is in exactly one of free list, waiter's slot, writer, service list, ready queue or worker batch |
| Delivery.DeliveredInOrder | engine/p8_core.cpp:497-551 | for every interleaving and writer: sink, batch, ready queue and held buffers, in this order, are what the writer produced and did not roll back |
| Delivery.PullOrder | engine/p8_core.cpp:1183-1203 | pulling one writer keeps every writer's order |
| Delivery.DieOrder | engine/p8_core.cpp:1160-1180 | so does the hand-over of a dying writer |
| Chains.SinkChains | engine/p8_tls_writer.cpp:40-73 | every continuation at the sink directly follows a FRAGMENT buffer of its writer and begins with a share of the record that has the last share of that buffer; if no discarded record began in a continuation, every FRAGMENT buffer is followed by its continuation |
| Chains.SharesMeet | engine/p8_tls_writer.cpp:86-107 | in every run, in the batch, on the ready queue and in each writer's hands too: no continuation is empty, and it goes on with the record whose share the buffer before it ends with |
| Shares.CommittedShares | engine/p8_tls_writer.cpp:76-110 | over any interleaving, from a record's header to its commit the writer's log gains that record's share once and once more for each rotation, nothing else, and as many buffers are closed as there were rotations |
| Shares.DiscardLoses | engine/p8_log.cpp:682-697 | in any run, a discarded record leaves its writer with the closed buffers it had when the record was opened, and the log loses exactly the shares that were in the tail then |
| Shares.RecordsAccounted | engine/p8_log.cpp:418-457 | in every run, every record a writer began was committed, given up for want of a descriptor, or counted as dropped, exactly once, unless it is the one under way |
| Chains.TornIff | engine/p8_log.cpp:682-697 | in every run some discarded record had begun in a continuation if and only if at the sink, in the batch, on the ready queue or among a writer's finished buffers a FRAGMENT buffer is not followed by its continuation |
| Chains.DiscardBreaksIff | engine/p8_log.cpp:682-697 | from the step that opens a record to the end of its rollback, over any interleaving and whatever broke before: afterwards a FRAGMENT buffer of the writer lacks its continuation if and only if one did already or the buffer the record was opened in was a continuation; a run that was whole is torn by exactly the latter |
| Chains.UnfollowedJoin | engine/p8_tls_writer.cpp:139-156 | handing over and joining lists cuts no chain and mends none |
| Counterexamples.BrokenChain | engine/p8_log.cpp:682-697 | a run in which the sink ends with a FRAGMENT buffer and nothing after it |
| Descriptors.AtMostOneCycleLate | engine/p8_core.cpp:497-551 | before a cycle writes data, every descriptor needed by the data of earlier cycles has been written, unless it was dropped |
| Descriptors.DescriptorFirstIff | engine/p8_core.cpp:501-551 | when a cycle is about to write data, a descriptor has been written if and only if it was registered before this cycle took the service list and was not dropped |
| Descriptors.PieceAfterDescriptorIff | engine/p8_core.cpp:501-551 | the same for the descriptor of every piece of data in the batch |
| Descriptors.RegisteredFirst | engine/p8_core.cpp:1547-1593 | data at the sink refers only to registered descriptors, each written, dropped or still on the service lists |
| Descriptors.DescriptorsInOrder | engine/p8_core.cpp:497-516 | exactly once and in order of registration: in every run, descriptors at the sink, then those about to be written, then those on the service list are all that were registered and found room |
| Counterexamples.DataBeforeDescriptor | engine/p8_core.cpp:501-528 | a run in which data is written before its descriptor |

## Left out

- LogWriter.TlsWriter.Send: after an overrun the write position is past the end of the buffer; what a later call then does is undefined in C++ and not modelled. The header of a discarded record is not finalized before its buffers are released, since nobody reads it.
- LogWriter.Core.ReleaseBuffer: the hand-off to a waiting thread is not part of this class; `Pool.Recycle` has it.
- LogWriter.TlsWriter.BeginRecord: buffers the worker pulls from this writer during the wait are counted as free again at once; who else may get them is in `Pool` and `System`.
- LogWriter.Core.AcquireWait: other writers' traffic on the pool during the wait is not part of this class; `Pool` and `System` have it.
- Pool.BarrierIsSafe: the 32-bit counters of waiting threads are unbounded here; the shard cursor does wrap.
- Writers.DropsConserved: one counter of a writer stands for all three, which are separate atomics and never depend on each other.
- System: buffer contents are pieces of records, not bytes, and whether a tail has room is a free choice of the step.
- System: `worker_main`, `drain_writers` and `flush_ready` are steps of a state machine over values, not a class with loops, because each of their lock sections interleaves with the steps of other threads.
- System: the worker's list of writers to pull may be any list, in any order, so the order between different writers is not stated.
- SharedBudget.Do: a pool always has a budget, as `cp8_core` gives it one, and a buffer size above zero; destroying a pool while callers still hold its buffers is not excluded, but nothing is said of those buffers.
- The pressure percentage that decides whether to wake the worker: any acquire may wake it.
- The file and null sinks, the configuration, the host header: the sink is a log that only grows.
- The hash of file and line: an opaque key, with no claim that two call sites differ.
- UTF-16 and wide strings: their byte lengths and bytes are given; the terminator search is not modelled.
- Calls before initialization, which return at once, and 32-bit or Windows layouts.
- The stop signal and the timeout's length in the worker loop; a wait may time out at any moment.
- Capture mode for tests, profiler macros, `mu_outstanding_buffers` (never read), traces, metric groups and queries, thread registration: stubs or test aids.
- The shared-memory singleton and C++ object lifetime.
- Memory orders: steps are sequentially consistent.
- `serialize_attrs` and `serialize_utf8_string` (`engine/p8_tls_writer.cpp:170-270`): `send` does not use them.
