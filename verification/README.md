# A verified model of the WASM runtime

The project models five parts of the runtime and proves what they keep over every run.

- **Package cache.** `MemoryCache` (two least-recently-used maps, one byte budget, one tick counter) is a class proved
  against a specification of its calls. `DiskCache` and `RuntimeInner::prepare` are step systems: any number of tasks,
  processes and digests, with dropped tasks, crashes, failed publications and corrupted files as steps.
- **Checkpoints.** The journal scanner, the sealed envelope with its MAC, and the streaming forms of both.
- **Isolated workers.** The framing, the chunked read and hash loops, the parent/worker protocol of restore and capture
  as a step system in which either side may stop anywhere, and the supervisors with every way their awaits can end.
- **Environment identity.** The hash preimage, the canonical lists and the guest path check.
- **Accounting.** Pause time against the active-time limit, admission permits and counters, limited bodies and sinks.

Files follow the source: `Recency`, `CacheSpec`, `LruReference`, `CountedCache`, `MemoryCache`, `CacheInclusion`,
`DiskCache`, `DiskRuns`, `Profiles`, `Prepare`, `PrepareLocks`, `PrepareProofs`, `PrepareRuns`, `PrepareServes`
(`src/runtime.rs`, `src/cache.rs`); `Journal`, `Checkpoint`, `Streams`, `CheckpointCodec` (`src/checkpoint.rs`);
`Framing`, `WorkerProtocol`, `Supervisor` (`src/wasix_worker.rs`); `GuestPaths`, `Environment` (`src/environment.rs`);
`PauseToken` (`src/types.rs`, `src/runtime.rs`); `HttpService` (`src/http.rs`); `OutputSink` (`src/wasix_output.rs`);
`Domains` compares three of them. `Bytes`, `Json`, `Crypto` and `Wrappers` are shared.

## Conventions and hypotheses

- Text is its UTF-8 bytes. `usize` and `u64` are 64 bits wide; saturation, wrap-around and checked sums are written out.
- Foreign code is a parameter: SHA-256, HMAC-SHA-256, the compiler with its serializer, and the JSON codecs are function
  fields of `Host`, `Toolchain`, `Codec` and `Library`.
- No function into 32 bytes is free of collisions, so no property assumes that of all inputs. `WorkerProtocol` and
  `Environment` assume nothing: their results name the collision that an exception would exhibit. `DiskCache` and
  `Prepare` assume it of the inputs that occur: `Host.scope` holds the MAC inputs that publishers and loaders compute, and
  `Config.sources` the sources that any process prepares. Every run computes finitely many of both, and the results hold
  for every such set. `DiskRuns.SoundHost` and `PrepareServes.SoundConfig` exhibit a host and a configuration that meet
  the hypotheses, and `DiskRuns.HonestRun` and `PrepareServes.EveryTierServes` runs on any such.
- Decoding undoes encoding, and deserializing undoes serializing, for the values that occur: `DiskCache.Sound`,
  `Prepare.Restores`, `Checkpoint.RoundTrips`, `Environment.Decodes`.
- Corruption may write anything into any file except metadata whose tag verifies for an input in scope that was never
  published (`DiskCache.NoForgery`); for checkpoints, `Checkpoint.Unforgeable` says the same of the captures that were
  sealed.
- Clock readings, process exits, placement verdicts, chunk sizes and I/O failures are parameters, events or
  nondeterministic choices; `Supervisor.Course` names those of one worker operation. The network and the file system appear only as the streams and the path map they provide.
- Temporary files of the disk cache have distinct names, as the process id and the process-wide sequence number make them.

## Where a promise does not hold as stated

- A timeout is meant to fire only once the unpaused time has reached the limit. The code reads the clock and the pause
  total at two different instants, twice, so a pause between the paired readings counts as active time.
  `PauseToken.TimeoutCanFireEarly` gives a schedule and `PauseToken.TimeoutSoundIff` the exact condition.
- Opening what was sealed is meant to succeed always. Sealing does not check that the largest artifact the limit allows
  has a representable length and opening does, so `Checkpoint.SealThenOpen` states the exact condition and
  `Checkpoint.OpenCanFail` gives a sealed capture that does not open.
- The byte count of the warmish tier saturates, so it is not the sum of the retained lengths after every insertion.
  `CountedCache.CountCanSaturate` gives an instance in which the tier exceeds its limit without evicting, and
  `CountedCache.InsertExactIff` and `MemoryCache.InsertWarmishEntry` the exact condition. A byte limit of at most half of
  `usize` rules it out (`CountedCache.ReplayExact`); on a 64-bit host live allocations cannot reach such a sum either.

## Main results

- Cache: `PrepareRuns.PreparedIsCompiled`, `PrepareRuns.AnswerIsCompilers`, `PrepareRuns.RejectedByLoad`,
  `PrepareRuns.DiskTriedFirst`, `PrepareRuns.NeverDeserializeFailed`, `PrepareServes.EveryTierServes`,
  `PrepareServes.FailsClosed`, `PrepareLocks.OneCallPerDigest`, `PrepareLocks.CompilesSeparated`,
  `LruReference.ReplayIsLru`, `CacheInclusion.ReplayIncluded`, `CountedCache.ReplayExact`,
  `CountedCache.InsertExactIff`, `CacheSpec.ReplayWithinLimits`, `Recency.TrimIsLargestFit`,
  `DiskRuns.LoadIsAuthentic`, `DiskRuns.LoadAfterPublish`.
- Checkpoints: `Journal.ScanJournal`, `Journal.AcceptedPrefixFree`, `Journal.AcceptedCut`, `Checkpoint.OpensIff`,
  `Checkpoint.SealThenOpen`, `Checkpoint.OpensOnlySealed`, `Checkpoint.OtherBuildRefused`,
  `CheckpointCodec.SealCaptureInto`, `CheckpointCodec.OpenReader`, `CheckpointCodec.SealAndRestore`.
- Workers: `WorkerProtocol.ExecutesOnlyPrepared`, `WorkerProtocol.ResultIsWorkersOutput`, `Supervisor.RunOperation`,
  `Framing.ConversationExact`.
- Environment: `Environment.AcceptedIff`, `Environment.PreimageInjective`, `Environment.CalculatedManifestParses`,
  `GuestPaths.AcceptedPathsAntichain`, `GuestPaths.NormalIsValid`.
- Accounting: `PauseToken.TotalPausedExact`, `PauseToken.CallbackDecides`, `PauseToken.TimeoutSoundIff`,
  `HttpService.AdmissionBounds`, `HttpService.EndsOnce`, `HttpService.EveryPollShows`,
  `HttpService.LifetimeEndsRequest`, `OutputSink.FinishExact`, `OutputSink.WriteReports`.

The other rows of the table state what these rest on.

## Model

| member | source | states |
|---|---|---|
| `Recency.FindLeastRecent` | src/runtime.rs:908-913 | whatever order the map is walked in, the result is the entry that precedes all others by stamp and then key, and there is none only for an empty map |
| `Recency.LeastRecentUnique` | src/runtime.rs:908-913 | there is only one such entry, so the eviction order is deterministic |
| `Recency.TrimIsLargestFit` | src/runtime.rs:861-896 | eviction keeps a most recent part that fits, and it is the largest one: the evicted entries are the shortest least recent run whose removal restores the bounds |
| `CacheSpec.ApplyWithinLimits` | src/runtime.rs:847-906 | every cache call keeps all three capacities |
| `CacheSpec.ReplayWithinLimits` | src/runtime.rs:847-906 | all three capacities hold after every sequence of calls, even when the tick counter wraps |
| `CacheSpec.ReplayStamped` | src/runtime.rs:902-905 | within 2^64 calls no entry carries a stamp later than the counter |
| `CacheSpec.NewWarmEntrySurvives` | src/runtime.rs:861-869 | an admitted component is warm after its own insertion, stamped with the newest tick |
| `CacheSpec.NewWarmishEntrySurvives` | src/runtime.rs:871-896 | an artifact within the byte budget is kept by its own insertion, and a larger one changes nothing at all |
| `CacheSpec.LookedUpSurvives` | src/runtime.rs:847-869 | what was just looked up outlives the next insertion, so the tier evicts by use and not by age |
| `CacheSpec.LookedUpArtifactSurvives` | src/runtime.rs:854-896 | so does a serialized artifact, when the two fit together |
| `LruReference.PutInFront` | src/runtime.rs:847-869 | a new or refreshed entry stands in front of the list that the map holds |
| `LruReference.DropBack` | src/runtime.rs:908-913 | the entry evicted first is the back of that list |
| `LruReference.TrimCutsBytes` | src/runtime.rs:888-895 | the eviction loop cuts the list from the back until both bounds hold |
| `LruReference.UseKeepsSame` | src/runtime.rs:847-906 | every cache call does to both maps what moving to the front, cutting from the back or taking out does to two lists |
| `LruReference.ReplayIsLru` | src/runtime.rs:847-906 | within 2^64 calls, after every sequence of calls both maps hold exactly what two least-recently-used lists hold |
| `LruReference.TierIsUse` | src/runtime.rs:474-482 | asking for a tier counts as a use in the warm tier and, after a miss there, in the other |
| `CountedCache.CountedInsert` | src/runtime.rs:876-887 | the two saturating updates keep the byte count exact if and only if the retained bytes fit the counter, which otherwise stands at its maximum |
| `CountedCache.EvictExact` | src/runtime.rs:888-895 | from an exact counter the loop leaves the largest most recent part within both bounds, exactly counted |
| `CountedCache.EvictLagging` | src/runtime.rs:888-895 | from a counter that lags behind the loop keeps the newest entry and ends lagging by as many bytes |
| `CountedCache.InsertExactIff` | src/runtime.rs:871-896 | an insertion into an exactly counted tier leaves an exact counter if and only if the counter could hold what was retained right after it |
| `CountedCache.CountCanSaturate` | src/runtime.rs:887 | one artifact of the largest length and one further byte leave a wrong counter and a tier over its limit |
| `CountedCache.InsertionCounts` | src/runtime.rs:871-896 | under that condition the insertion is the specified one, exactly counted and within all capacities |
| `CountedCache.HalfIsCountable` | src/runtime.rs:887 | a byte limit of at most half of usize makes every insertion countable |
| `CountedCache.ReplayExact` | src/runtime.rs:847-906 | with such a limit, after every sequence of calls the tiers are those of the specification, the counter is the sum of the retained lengths, and all capacities hold |
| `MemoryCacheImpl.MemoryCache.constructor` | src/runtime.rs:835-845 | for every configured byte limit a new cache is valid and is the empty state of the specification |
| `MemoryCacheImpl.MemoryCache.NextTick` | src/runtime.rs:902-905 | the counter advances, wraps past its maximum and never yields zero |
| `MemoryCacheImpl.MemoryCache.LookupWarm` | src/runtime.rs:847-852 | returns what was stored and refines the specified call, keeping the byte count equal to the retained lengths |
| `MemoryCacheImpl.MemoryCache.LookupWarmish` | src/runtime.rs:854-859 | the same for the serialized tier |
| `MemoryCacheImpl.MemoryCache.InsertWarmEntry` | src/runtime.rs:861-869 | the in-place insert and eviction loop refine one insertion followed by the largest fitting most recent part |
| `MemoryCacheImpl.MemoryCache.EvictWarm` | src/runtime.rs:864-868 | the loop ends with exactly the largest most recent part that fits |
| `MemoryCacheImpl.MemoryCache.InsertWarmishEntry` | src/runtime.rs:871-896 | the state it leaves whatever the counter does; the specified insertion with an exact counter while the counter can hold what is retained right after it, and before the tick counter wraps only then |
| `MemoryCacheImpl.MemoryCache.AddWarmish` | src/runtime.rs:876-887 | replaces the entry and makes both saturating updates, from any value of the counter |
| `MemoryCacheImpl.MemoryCache.EvictWarmish` | src/runtime.rs:888-895 | the loop refines its specification from any value of the counter, a saturated one included |
| `MemoryCacheImpl.MemoryCache.DemoteEntry` | src/runtime.rs:898-900 | demotion refines its specification and keeps validity |
| `CacheInclusion.IncludedInsert` | src/runtime.rs:861-869 | an insertion keeps the smaller warm map inside the larger one and the size difference within the capacity difference |
| `CacheInclusion.IncludedApply` | src/runtime.rs:847-900 | so does every other call, demotions included |
| `CacheInclusion.ReplayIncluded` | src/runtime.rs:847-913 | replaying any calls with two warm capacities, what is warm under the smaller is warm under the larger with the same component and stamp |
| `Profiles.CacheIdInjective` | src/types.rs:38-48 | different profiles have different cache ids |
| `Profiles.WorldMeans` | src/runtime.rs:934-946 | a name announces a world if and only if it is the export of that world with some patch number |
| `Profiles.SortDedupKeeps` | src/runtime.rs:947-948 | sorting and removing duplicates keeps exactly the profiles found |
| `Profiles.DetectProfile` | src/runtime.rs:934-958 | the loop, sort and dedup return the one world the exports name, and fail exactly when there is none or more than one |
| `Profiles.DetectedUnique` | src/runtime.rs:934-958 | that outcome is determined by the exports, whatever their order and repetition |
| `DiskCache.IdentityInjective` | src/cache.rs:160-170 | an identity determines digest, profile, engine version and target, so no two builds share one |
| `Json.UnescapeEscape` | src/cache.rs:186-197 | a reader by section 7 of RFC 8259 gets back every string that was written |
| `DiskCache.MacInputInjective` | src/cache.rs:186-197 | what is authenticated determines identity and artifact although no length separates them |
| `Domains.Separate` | src/cache.rs:186-197 | what is authenticated for the cache, authenticated for a checkpoint, and hashed for an environment never coincide |
| `DiskCache.LoadReturns` | src/cache.rs:97-129 | a load misses if and only if neither file is there, and returns bytes if and only if the artifact file holds them and the metadata names this component, world and build, is within the limit, and authenticates them |
| `DiskCache.LoaderStepOk` | src/cache.rs:97-129 | no file operation of a load accepts bytes that were not published under the requested identity |
| `DiskCache.InvStep` | src/cache.rs:97-158 | every step of any publisher, loader or corrupter keeps the authenticity invariant and the temporary names distinct, for every set of MAC inputs without a collision |
| `DiskRuns.LoadIsAuthentic` | src/cache.rs:97-158 | in every interleaving with crashes and corruption, bytes a load returns were published under exactly the identity asked for |
| `DiskRuns.CompletedIsSettled` | src/cache.rs:131-158 | when the publishers of an entry agree and one has completed, both files hold the agreed entry and go on doing so |
| `DiskRuns.SettledLoads` | src/cache.rs:97-129 | every load of such an entry that meets no I/O error and has ended returns the agreed bytes |
| `DiskRuns.LoadAfterPublish` | src/cache.rs:131-158 | once one of several agreeing publishers has completed, every later uncorrupted load returns their bytes |
| `DiskRuns.HonestRun` | src/cache.rs:97-158 | on every sound host every entry within the limits can be published and then loaded, so the results above are about runs that exist |
| `DiskRuns.LoadRuns` | src/cache.rs:97-129 | a load that is left alone ends exactly so |
| `DiskRuns.SoundHost` | src/cache.rs:160-197 | for every entry there is a host that meets the hypotheses |
| `Prepare.DigestInjective` | src/cache.rs:199-201 | among the sources that occur a component digest names one |
| `Prepare.CompileMeans` | src/runtime.rs:562-575 | a cold preparation yields a component if and only if it compiles, exports exactly one world and serializes |
| `Prepare.DeserializeMeans` | src/runtime.rs:916-932 | an artifact yields a component if and only if it deserializes to one whose only world is the profile it was stored under |
| `PrepareProofs.DeserializeGood` | src/runtime.rs:916-932 | a genuine artifact deserializes, with its own profile, to what compiling gives |
| `PrepareProofs.InvStep` | src/runtime.rs:494-597 | every step of any task, the disk, other processes or a crash keeps the invariant that ties both tiers and all tasks, failed ones included, to plain compilation |
| `PrepareRuns.PreparedIsCompiled` | src/runtime.rs:494-597 | in every interleaving, a component returned as Ok is what the compiler gives for its source, under the one world it exports, whichever tier served it |
| `PrepareRuns.AnswerIsCompilers` | src/runtime.rs:494-597 | in every interleaving a call answers with the component if its source compiles and that it does not if it does not; only the disk tier may make it answer otherwise, by a rejection |
| `PrepareRuns.RejectedByLoad` | src/runtime.rs:541-543 | a rejected call has finished a load that failed |
| `PrepareRuns.DiskTriedFirst` | src/runtime.rs:541-562 | with a disk a call reaches the compiler only after loads that found nothing under every profile |
| `PrepareRuns.NeverDeserializeFailed` | src/runtime.rs:527-553 | no call fails because a tier handed out an artifact that does not load or has another profile |
| `PrepareLocks.LockStep` | src/runtime.rs:494-597 | every step keeps the lock discipline and what a call past its second look-up missed stays missing, with no hypothesis on hash, compiler or disk |
| `PrepareLocks.OneCallPerDigest` | src/runtime.rs:508-516 | in every run at most one live call per digest is past its lock |
| `PrepareLocks.CompilesSeparated` | src/runtime.rs:508-597 | between two successful compiles of one digest some step removed that digest from the warm map |
| `PrepareServes.WarmServes` | src/runtime.rs:499-506 | from every state, a call whose component is warm is answered at its first look-up, whoever holds the lock of its digest |
| `PrepareServes.WarmishServes` | src/runtime.rs:526-539 | one whose artifact is in the other tier is answered with what compiling gives, which becomes warm |
| `PrepareServes.DiskServes` | src/runtime.rs:541-560 | one whose artifact is stored under its own profile, whichever that is, is answered from the disk and put into both tiers |
| `PrepareServes.FailsClosed` | docs/cache-operations.md:46-57 | one that finds an entry which is half published, malformed, of another build or not authentic is answered with a rejection, and no file is overwritten |
| `PrepareServes.ColdServes` | src/runtime.rs:562-596 | without a disk a source that compiles is compiled, put into both tiers and handed out |
| `PrepareServes.ColdPublishes` | src/runtime.rs:562-596 | with one it is stored there too, in exactly its two files |
| `PrepareServes.ColdCounts` | docs/cache-operations.md:63-72 | an artifact over the entry limit does not fail the call and is counted as a failed publication |
| `PrepareServes.ColdSurvives` | docs/cache-operations.md:63-72 | nor does an error while writing, which leaves the files as they were |
| `PrepareServes.CompilerRefuses` | src/runtime.rs:562-575 | a source that does not compile ends its call with that error, its lock free and nothing else changed |
| `PrepareServes.EveryTierServes` | src/runtime.rs:494-597 | for every sound configuration and source some run compiles and publishes it, answers a second call from memory and, after a crash, a third from the disk, all with the same component |
| `PrepareServes.LeadsIsRun` | src/runtime.rs:494-597 | whatever these results reach is reached by a run, so the results over all runs are about runs that exist |
| `PrepareServes.SoundConfig` | src/runtime.rs:494-597 | there is a configuration that meets the hypotheses, with such a source |
| `Journal.HeaderRoundTrip` | src/checkpoint.rs:1001-1040 | the header fields read back what was written |
| `Journal.ParseEncode` | src/checkpoint.rs:996-1060 | record framing is uniquely decodable: what was written is what is read |
| `Journal.EncodeParse` | src/checkpoint.rs:996-1060 | whatever can be read is the encoding of its reading |
| `Journal.AcceptedIffParsed` | src/checkpoint.rs:983-1067 | the accepted language in terms of the unique reading |
| `Journal.MagicIsNoHeader` | src/checkpoint.rs:1006-1016 | the repeated magic read as a header is already an unknown kind, so the test for it never changes what is accepted |
| `Journal.ScanDecides` | src/checkpoint.rs:996-1066 | from any point on, counting records accepts exactly when the records before and after form a lifecycle |
| `Journal.ReadHeader` | src/checkpoint.rs:997-1036 | the framing checks, in source order, accept a record exactly if it is whole, known and not illegally empty |
| `Journal.Tally` | src/checkpoint.rs:1037-1056 | a record is counted exactly if a module record is the first one and a snapshot the last one |
| `Journal.ScanRecords` | src/checkpoint.rs:996-1066 | the loop with its cursor, counters and early exits decides that language |
| `Journal.ScanJournal` | src/checkpoint.rs:983-1067 | accepts exactly the magic, one module record first, known records with legal bodies, a thread record, and one final snapshot |
| `Journal.AcceptedPrefixFree` | src/checkpoint.rs:996-1066 | no proper prefix and no proper extension of an accepted journal is accepted |
| `Journal.AcceptedCut` | src/checkpoint.rs:996-1066 | a record stream has at most one accepted cut, at the end of its first snapshot |
| `Checkpoint.ValidateHeader` | src/checkpoint.rs:579-627 | an accepted header gives a non-empty metadata part and journal within their limits and an exact artifact length that fits |
| `Checkpoint.HeaderRoundTrip` | src/checkpoint.rs:386-399 | magic, version and both lengths read back from the written header |
| `Checkpoint.CurrentIsValid` | src/checkpoint.rs:894-933 | the metadata of an attested capture passes its own validation |
| `Checkpoint.SealedLayout` | src/checkpoint.rs:522-627 | the layout read from a sealed artifact cuts it into the metadata, journal and tag that were written |
| `Checkpoint.SealThenOpen` | src/checkpoint.rs:330-399 | opening a sealed capture returns the identical journal, binding and worker digest, and succeeds if and only if the largest allowed artifact length is representable |
| `Checkpoint.SealsIff` | src/checkpoint.rs:330-384 | an attested capture seals if and only if its journal is within the limit and the format can hold its lengths |
| `Checkpoint.OpenedMetadata` | src/checkpoint.rs:912-933 | what opens carries metadata of this release, platform, protocol, cohort, engine, journal format, ABI, isolation policy and trigger, for the expected binding and the journal beside it, under a valid tag |
| `Checkpoint.GenuineOpens` | src/checkpoint.rs:522-577 | an artifact in the envelope, tagged under the key, whose metadata names the expected binding, this build in all ten respects and the journal, opens to exactly those |
| `Checkpoint.OpensGenuine` | src/checkpoint.rs:522-577 | and whatever opens is such an artifact |
| `Checkpoint.OpensIff` | src/checkpoint.rs:894-933 | so exactly the genuine artifacts open |
| `Checkpoint.OpenedBinding` | src/checkpoint.rs:110-121 | a binding under which something opens has its digests, tokens and generation in range |
| `Checkpoint.OtherBuildRefused` | src/checkpoint.rs:912-933 | what was sealed under the same key for another release or platform is refused |
| `Checkpoint.SealedUnderAnyLimit` | src/checkpoint.rs:629-635 | both sides of that condition occur: under every limit from 35 bytes up some capture seals |
| `Checkpoint.OpenCanFail` | src/checkpoint.rs:522-537 | with the largest limit a sealed capture is refused for an overflowing length |
| `Checkpoint.OpensOnlySealed` | src/checkpoint.rs:522-577 | whatever opens is byte for byte the artifact of a capture that was sealed with the expected binding, and yields that capture |
| `Checkpoint.IssuedIsUnforgeable` | src/checkpoint.rs:522-577 | the hypothesis of that result holds of every artifact that was sealed |
| `Streams.ChunkedReader.ReadExact` | src/checkpoint.rs:750-758 | fills the buffer with the next bytes over any chunking and interruptions, and fails exactly at a short end |
| `Streams.ChunkedReader.ReadTrailing` | src/checkpoint.rs:760-772 | finds a byte past the end if and only if there is one |
| `Streams.ChunkedWriter.WriteAll` | src/checkpoint.rs:737-748 | a sink that takes any part of what it is offered ends up with all of it |
| `Streams.WriteChunks` | src/checkpoint.rs:695-735 | the bounded vector accepts a serialization if and only if it fits, however it is cut |
| `CheckpointCodec.PrepareSeal` | src/checkpoint.rs:330-384 | the imperative checks agree with the specification of sealing, error for error |
| `CheckpointCodec.WritePrepared` | src/checkpoint.rs:386-399 | what reaches the sink is the body followed by the tag over exactly that body |
| `CheckpointCodec.SealCaptureInto` | src/checkpoint.rs:286-328 | a sink that does not fail receives exactly the bytes the buffered form returns, and nothing on an error |
| `CheckpointCodec.SealCapture` | src/checkpoint.rs:229-274 | the buffered form returns the specified artifact or error |
| `CheckpointCodec.CheckFramed` | src/checkpoint.rs:538-577 | authentication, metadata and journal checks agree with the specification |
| `CheckpointCodec.CheckParts` | src/checkpoint.rs:522-577 | so does the whole verification |
| `CheckpointCodec.Open` | src/checkpoint.rs:412-436 | opening yields the checkpoint the specification names, or its error |
| `CheckpointCodec.ReaderDecides` | src/checkpoint.rs:473-520 | what the reader refuses from the header or the length alone, the buffered form refuses too |
| `CheckpointCodec.OpenReader` | src/checkpoint.rs:473-520 | over every chunking the reader accepts exactly what the buffered form accepts and yields the same checkpoint |
| `CheckpointCodec.IntoParts` | src/checkpoint.rs:821-828 | the in-place shift yields the journal |
| `CheckpointCodec.RestoreJournal` | src/checkpoint.rs:473-520 | reading over any chunking and shifting in place gives the journal of exactly what opens |
| `CheckpointCodec.SealAndRestore` | src/checkpoint.rs:286-328 | a capture sealed into a sink, read back over any chunking and shifted is the captured journal, unless the limit alone refuses it |
| `Framing.UnframeFrame` | src/wasix_worker.rs:2797-2861 | a written frame is read back, with what follows it |
| `Framing.FrameUnframe` | src/wasix_worker.rs:2797-2861 | whatever is read was so written |
| `Framing.ConversationExact` | src/wasix_worker.rs:2062-2139 | a stream reads as a list of payloads if and only if it is exactly their frames and each is admitted at its place |
| `Framing.ReadFrame` | src/wasix_worker.rs:2797-2861 | over any chunking the reader decodes the next frame and stops behind it |
| `Framing.ReadConversation` | src/wasix_worker.rs:2062-2139 | the frames in order and then the end of the stream, over any chunking |
| `Framing.ReadDiagnostics` | src/wasix_worker.rs:2000-2020 | keeps exactly the longest allowed prefix, marked truncated if and only if more arrived, and fails if and only if a read failed or was interrupted |
| `Framing.HashDescriptor` | src/wasix_worker.rs:453-482 | hashes exactly the declared bytes, and fails if the file is shorter or longer |
| `Framing.InspectSealed` | src/wasix_worker.rs:3217-3274 | acknowledges length and digest of the whole content, and only of a sealed anonymous file within the limit |
| `Framing.ReadSealed` | src/wasix_worker.rs:3793-3818 | reads exactly the acknowledged bytes |
| `Framing.SealInput` | src/wasix_worker.rs:1455-1577 | the sealed copy and its recorded length and digest are those of the input |
| `WorkerProtocol.FingerprintInjective` | src/wasix_worker.rs:749-780 | a matching length and digest mean matching bytes or a collision of SHA-256 |
| `WorkerProtocol.InvParent` | src/wasix_worker.rs:2062-2139 | every step of the parent keeps the protocol invariant |
| `WorkerProtocol.InvWorker` | src/wasix_worker.rs:3279-3396 | every step of the worker keeps it |
| `WorkerProtocol.RunKeepsInv` | src/wasix_worker.rs:2062-2139 | it holds after every run, with stops and changed data |
| `WorkerProtocol.PlacedBySteps` | src/wasix_worker.rs:2702-2742 | the parent goes on only after placement accepted the process |
| `WorkerProtocol.ExecutesOnlyPrepared` | src/wasix_worker.rs:3279-3332 | the worker executes only after placement, a ready frame with the expected version, release, cohort, build and process and an accepted isolation, an acknowledgement of the exact lengths and digests, the authorization and the end of the stream; its inputs arrived sealed, in order and within their limits, and are byte for byte what the parent prepared unless the run exhibits a collision of SHA-256 |
| `WorkerProtocol.ResultIsWorkersOutput` | src/wasix_worker.rs:2119-2139 | a reported result is, with the same exception, byte for byte the output of a guest that exited with zero on inputs so handed over; each part is within its limit and no frame followed |
| `WorkerProtocol.HonestRun` | src/wasix_worker.rs:3352-3421 | inputs and outputs within the limits do get through: some run reports exactly that output |
| `Supervisor.WorkerProcess.KillTree` | src/wasix_worker.rs:2765-2773 | signals the group exactly while the worker is armed, and late exactly if the leader was already waited for |
| `Supervisor.WorkerProcess.Drop` | src/wasix_worker.rs:2788-2795 | dropping an armed worker kills group and child, and an unreaped child is left to a pending wait |
| `Supervisor.SpawnWorker` | src/wasix_worker.rs:2702-2742 | a worker is handed on if and only if placement did not refuse it, and a refused one is disposed of |
| `Supervisor.FinishWorkerOutput` | src/wasix_worker.rs:2527-2556 | succeeds if and only if the output ended and the wait returned a clean exit, and then the group is killed and the worker disarmed; otherwise the worker is still armed or already disposed of |
| `Supervisor.SpawnReaper` | src/wasix_worker.rs:2779-2786 | the worker is killed with its group before anybody waits |
| `Supervisor.ReaperTask` | src/wasix_worker.rs:2782-2785 | disposal survives the reaper being dropped while it waits |
| `Supervisor.SuperviseWithReaper` | src/wasix_worker.rs:1804-1837 | a probe or transport disposes of its worker however each await ends, and reports success if and only if the exchange and the ending did succeed |
| `Supervisor.SuperviseInline` | src/wasix_worker.rs:1883-1951 | so does a restore or capture, with or without an observed exit |
| `Supervisor.RunOperation` | src/wasix_worker.rs:2142-2196 | no path of any operation ends with an armed worker that was not killed; a supervisor that is left to finish reports success if and only if the worker was placed, the exchange succeeded, it exited cleanly and a captured journal was attested; the group is signalled after the reaping of its leader exactly if nobody had to kill the leader |
| `GuestPaths.CoversIff` | src/environment.rs:366-381 | segment-wise ancestry is equality or a byte prefix ending at a slash |
| `GuestPaths.LaterIsNoAncestor` | src/environment.rs:355-381 | in a sorted list no later path is an ancestor of an earlier one |
| `GuestPaths.AcceptedPathsAntichain` | src/environment.rs:250-265 | accepted immutable paths with /tmp and /work form an antichain in both directions although only later paths are compared |
| `GuestPaths.ValidIsNormal` | src/environment.rs:383-404 | an accepted path is absolute with at least one segment, none of them empty, . or .., in the permitted alphabet |
| `GuestPaths.NormalIsValid` | src/environment.rs:383-404 | and every such path within the length limit is accepted: the tests for double and final slashes and backslashes refuse nothing more |
| `GuestPaths.PolicyIsAccepted` | src/environment.rs:250-265 | every strictly ordered antichain of such paths with /tmp and /work is accepted |
| `GuestPaths.SortedListsEqual` | src/environment.rs:338-353 | strict order makes equal sets equal lists |
| `Environment.PreimageInjective` | src/environment.rs:146-188 | equal preimages mean equality of every field but the id |
| `Environment.HashString` | src/environment.rs:278-281 | feeds a length-prefixed string |
| `Environment.HashStrings` | src/environment.rs:283-288 | the loop feeds a counted list of length-prefixed strings |
| `Environment.FeedPreimage` | src/environment.rs:165-188 | the updates, field by field, feed exactly the uniquely decodable preimage |
| `Environment.CalculateEnvironmentId` | src/environment.rs:165-188 | an id for exactly the valid contents, and it is the prefixed digest of the preimage |
| `Environment.CanonicalIff` | src/environment.rs:200-275 | the fields pass if and only if the constants are those of version 1, texts and digests are in range, the lists are strictly ordered sets, the default command is in the catalogue, the paths form such an antichain, and the encoding fits |
| `Environment.AcceptedIff` | src/environment.rs:107-144 | a manifest is accepted if and only if its text is bounded and decodes to version 1 with such fields and its own identity |
| `Environment.IdRoom` | src/environment.rs:266-273 | an id takes the same room in JSON as any other of its length |
| `Environment.CalculatedFits` | src/environment.rs:266-273 | a size check made with the placeholder holds for the calculated id |
| `Environment.CalculatedManifestParses` | src/environment.rs:195-198 | a manifest given its calculated id parses after encoding, whenever the decoder gives it back |
| `Environment.SameIdSameContent` | src/environment.rs:165-188 | ids agree if and only if the contents are equal or their preimages are a collision of SHA-256 |
| `Environment.SameIdSameManifest` | src/environment.rs:107-144 | ids of two accepted manifests agree if and only if the manifests are equal or exhibit such a collision |
| `Environment.AcceptedManifest` | src/environment.rs:107-144 | some manifest meets the hypotheses of these results and is accepted |
| `PauseToken.Token.RequestPause` | src/types.rs:248-254 | a pause starts once and keeps its first start time |
| `PauseToken.Token.RequestResume` | src/types.rs:257-270 | resuming adds the elapsed pause once, and is refused exactly after eviction |
| `PauseToken.Token.MarkResident` | src/types.rs:286-291 | only a paused token that was not evicted becomes resident |
| `PauseToken.Token.ReadTotalPaused` | src/types.rs:293-300 | reads the completed pauses and the open one without changing anything |
| `PauseToken.Token.DoEvict` | src/types.rs:332-337 | eviction refines its specification and cancels the invocation |
| `PauseToken.TotalPausedExact` | src/types.rs:248-300 | over every schedule the reported total is the number of paused instants, and the flag and the start time agree |
| `PauseToken.TotalPausedGrowth` | src/types.rs:293-300 | the total never decreases and grows no faster than the clock |
| `PauseToken.ActiveExact` | src/runtime.rs:645-658 | over every schedule the active time computed from the four readings is the unpaused time plus the paused instants between the paired readings |
| `PauseToken.TimeoutNotMissed` | src/runtime.rs:656-663 | once the unpaused time has reached the limit the callback interrupts the guest |
| `PauseToken.TimeoutSoundIff` | src/runtime.rs:645-663 | the callback times out only then, for every limit, if and only if no pause fell between the paired readings or no timeout can fire any more |
| `PauseToken.TimeoutCanFireEarly` | src/runtime.rs:645-663 | a pause and one instant between the start and the baseline make it time out early |
| `PauseToken.EvictionIsFinal` | src/types.rs:332-337 | over every schedule the token is evicted exactly if an eviction happened, and the invocation cancelled exactly if an eviction or a cancellation did |
| `PauseToken.PausedIff` | src/types.rs:248-270 | over every schedule the token is paused exactly if the last pause was not followed by a resumption |
| `PauseToken.ResidentIff` | src/types.rs:286-291 | it is resident exactly if it was marked so and since then neither evicted nor paused or resumed |
| `PauseToken.CallbackDecides` | src/runtime.rs:656-679 | over every schedule the callback interrupts exactly after an eviction or cancellation, times out exactly at the limit of the active time, holds the guest exactly while a pause is pending, and otherwise lets it go on |
| `PauseToken.CallerSees` | src/runtime.rs:355-412 | over every schedule the reported state and the answers to pause and resume are determined by eviction, completion, residence and the pending pause |
| `PauseToken.AfterEviction` | src/runtime.rs:1033-1048 | a failure is IdleEvicted exactly after an eviction, although it also cancels; otherwise Timeout exactly after a timeout, Cancelled exactly after a cancellation, and else a trap; an evicted invocation refuses to pause and resume and is interrupted |
| `HttpService.InvStep` | src/http.rs:743-900 | every step of any request keeps permits and counters equal to what the requests hold |
| `HttpService.AdmissionBounds` | src/http.rs:743-789 | in every interleaving in_flight is at most the permits held, those are at most the maximum, and the decrement never wraps |
| `HttpService.EndsOnce` | src/http.rs:889-900 | an ended request was counted in once, dropped once, released its permit once, and completed once or not at all |
| `HttpService.AdmissionConserved` | src/http.rs:804-900 | over every run the permits handed out are the requests in flight, the completed ones the service counted, and the abandoned ones |
| `HttpService.StreamingBody.PollFrame` | src/http.rs:533-562 | the in-place body refines one step of the specified stream |
| `HttpService.LimitBody.PollFrame` | src/http.rs:392-412 | the in-place limit refines the same step without a completion |
| `HttpService.PassedWithinLimit` | src/http.rs:392-412 | however a body is polled, the bytes passed on and those still allowed never exceed the limit |
| `HttpService.StreamExact` | src/http.rs:533-562 | completion is counted if and only if the inner body ended, at once or later, with no earlier error or overflow |
| `HttpService.EveryPollShows` | src/http.rs:392-412 | every poll shows data in full while all data so far fits the limit and an error otherwise, an end only when the inner body ended, and an error when it failed |
| `HttpService.CompletedIsWhole` | src/http.rs:533-562 | a response that counts as completed was passed on whole |
| `HttpService.LifetimeEndsRequest` | src/http.rs:847-900 | however it is polled and dropped, a streamed body ends its request exactly once, as completed if and only if it ended cleanly |
| `OutputSink.BoundedWasixOutput.PollWrite` | src/wasix_output.rs:88-116 | a write is taken whole or not at all and refines its specification |
| `OutputSink.BoundedWasixOutput.PollWriteVectored` | src/wasix_output.rs:118-156 | the loop over buffers is one write of their concatenation whenever the total fits, and otherwise only marks overflow |
| `OutputSink.BoundedWasixOutput.SumLengths` | src/wasix_output.rs:123-130 | the checked fold gives the length of the concatenation or its overflow |
| `OutputSink.BoundedWasixOutput.PollShutdown` | src/wasix_output.rs:166-169 | shutdown refines its specification and keeps the bytes |
| `OutputSink.BoundedWasixOutput.PollWriteReady` | src/wasix_output.rs:225-235 | the reported room is exactly what the next write may hold |
| `OutputSink.BoundedWasixOutput.Finish` | src/wasix_output.rs:55-67 | returns the bytes or the overflow without changing anything |
| `OutputSink.FinishExact` | src/wasix_output.rs:55-67 | after any writes and shutdowns finish succeeds if and only if all that was offered before the first shutdown fits, and then returns all of it |
| `OutputSink.WriteReports` | src/wasix_output.rs:88-156 | after any operations a write is taken whole if and only if it is empty or the sink is open and all that was offered fits, and refused as broken exactly after a shutdown |

## Left out

- Wasmtime and Wasmer engines, linkers, instantiation, fuel and memory limits, and the bodies of journal records: foreign code.
- SHA-256, HMAC, hexadecimal and JSON library internals beyond the encoders whose lengths or injectivity a property needs.
- Linux isolation, credentials, resource limits, memfd creation and descriptor passing: system calls; `WorkerProtocol` takes the parent's judgement of the reported isolation as a parameter.
- Poisoned mutexes, allocation failures, and the texts of error messages; error kinds are kept where they decide the outcome.
- `verify` of the checkpoint codec, which borrows what `open` copies, and `seal` with a separate binding, which differs from `seal_capture` only in a comparison made first.
- The answer of `tier`; its effect on recency is modelled (`LruReference.TierIsUse`).
- The HTTP service's `package_tier`, `worker_created` and `idle_evictions`: telemetry that races with worker creation by design.
- Outbound HTTP grants, DNS checks and address filters: one-branch predicates and network I/O.
- The instant of idle eviction in `PauseToken::wait`: `select!` chooses among ready branches; eviction may come at any time in the model.
- `resident` implying `paused`, `warm` inside `warmish`, and exclusive compiler threads: not claimed, because the code does not keep them.
- The probe and transport exchanges of the worker protocol, which execute nothing; their supervision is modelled.
- Byte-level encoding of the protocol messages: `WorkerProtocol` exchanges decoded messages, and `Framing` covers the frames that carry them.
- `src/error.rs`, `src/config.rs`, `src/measurement.rs`, benchmarks, examples, scripts and fuzz targets: data carriers or harnesses.
- CacheSpec.NewWarmEntrySurvives: assumes fewer than 2^64 ticks, because after a wrap the newest stamp is the smallest.
- CacheSpec.NewWarmishEntrySurvives: the same assumption.
- CacheSpec.LookedUpSurvives: the same assumption.
- CacheSpec.LookedUpArtifactSurvives: the same assumption.
- LruReference.ReplayIsLru: the same assumption.
- PrepareLocks.CompilesSeparated: the same assumption.
- DiskRuns.LoadAfterPublish: leaves out corruption of the entry and of the temporary files of its own publishers, which the promise excludes.
- PauseToken.TotalPausedExact: counts clock instants and assumes that they fit the duration type.
- Supervisor.RunOperation: does not model how long the observation of an exiting worker lasts, only that it may end either way.
