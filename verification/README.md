# Fossil archive: a verified model

Fossil is a log-structured, multi-version archive of blockchain state. Publishers append
packages of state changes as immutable sorted runs under one head; compactors merge runs
into levels; a garbage collector removes what no head reaches; readers answer "the value of
this key at this block" from the runs of a pinned head. This project models that system in
Dafny, from the bytes of a data page to the interleavings of its processes, and proves what
holds of every input and every run.

The main results, each built from the ones before it:

* **Bytes.** Data pages, fence indexes, run roots, summary shards and account values have
  exactly one meaning: a decoder accepts precisely the strings its encoder writes.
* **One run.** Whatever bytes a fetch returns, a lookup in a built run fetches at most three
  objects, and an answer is the newest visible version in the builder's input. A scan of a
  built run through the read-ahead returns the builder's input in order. Inputs of state
  records are refused for no bound below eleven TiB per partition.
* **One merge.** Stored runs, scanned through one read-ahead, merge exactly when no version
  occurs twice, into the sorted union of what they were built from; in every state the
  read-ahead goes through at most seven pages of each list wait in memory. The merged run
  answers as its inputs probed newest first.
* **Summaries.** No sequence of additions makes a summary deny an added key.
* **Every run of the protocol.** In every interleaving of publishers and compactors, with
  lost acknowledgements, every committed head passes the reader's checks and answers every
  block up to its number as a flat replay of the committed packages. Levels are base-8
  digits; a package is rewritten at most 56 times; no package is appended twice. A publisher
  among compactors succeeds exactly when one of its 32 swaps meets the head it read last; a
  compactor among publishers commits its plan exactly then too, with every run appended
  meanwhile kept. What is committed is one hash-linked chain from genesis, each package
  brought by a publisher whose gate names the package's last block.
* **Garbage collection** is safe in every interleaving exactly when the age test and the
  deletion are one step and the minimum age strictly exceeds the re-stamping age plus the
  writers' deadline. The shipped ages are equal, not greater. Beside publishers and
  compactors it leaves every object of every run of the current head in the store, so a
  read of that head finds all it asks for.
* **State.** Incarnations stand in for wiping storage: after every block of every
  consistent history, account-first reads see exactly the flat state, accounts, storage and
  code. The parser accepts exactly the packages of a grammar of lines. What the exporter
  writes is among them, passes the lifecycle check, and publishes exactly its history.
* **Readers.** The native reader and the Worker agree whenever both answer. Without false
  positives about its two keys a cold account-plus-storage read takes at most
  1 + 2 * runs + 12 GETs on the Worker and 4 * runs + 12 natively, and never trips a budget.
  The Worker's GETs are also given exactly, shard by shard and search by search. The
  documented 1 + runs + 6 is not always enough: when both keys cross the block in the newest
  run it is exceeded by two, under every hash and for any number of runs. A concrete head
  takes 11 GETs against 9, and the heads for which it is enough are characterised.
* **The stored history.** Carrying out the commits of a history against an empty store, by
  writing packages and by merging stored runs from their bytes, leaves every head of it
  readable from that store. It succeeds exactly when every run can be written and none
  repeats the records of an earlier one with as many summary shards of another size. Where
  every package holds a record the latter never happens; packages without events can bring
  it about, and then the store refuses the merge, against what the source intends.

`Archive.dfy` composes the layers: bytes in a store, read by either reader against any head
of any run of the protocol, give the flat state after the block. `StoredReads.dfy` starts one
step earlier, with an empty store and the commits of the run, with or without collectors
beside it. `Coexistence.dfy` adds the collector, `ExportPackages.dfy` the exporter.

## How to read it

| module | stands for |
|---|---|
| `Bytes`, `Versions` | byte strings, their order, versioned records, what an answer is |
| `RunFormat`, `FenceIndex`, `RunTree`, `RunIdentity` | encodings of pages, fences, roots; the object tree of a run; that its root names its records |
| `RunBuilder`, `RunCapacity`, `RunReader`, `RunScanner`, `RunWalk` | the streaming builder and what it accepts, point lookups, the scanner, the object walk |
| `ReadAhead`, `PageLists` | batched page reads of a merge |
| `Merge`, `RunMerge`, `RunWriter` | the k-way merge, the merge of stored runs, runs written with their summaries |
| `Bloom`, `Summary` | bitsets, shards, the summary builder |
| `Head`, `Ledger`, `History`, `Commits`, `Growth` | the manifest, publications, compactions, histories of heads |
| `Store`, `Protocol`, `Admission` | conditional updates, concurrent publishers and compactors, what a publication must show |
| `Contention`, `CompactorContention` | a publisher among compactors, a compactor among publishers |
| `GarbageCollection`, `Coexistence` | the collector, and all processes together |
| `Keys`, `StateReads`, `Lifetimes`, `Exports` | key layouts, account-first reads, the incarnation journal, exported records |
| `Normalized`, `NormalizedGrammar` | the package parser, and the grammar it accepts |
| `Packaging`, `ExportPackages`, `ExportLifecycle` | package records, the lifecycle check, packages cut from an export and why they pass it |
| `Views`, `ReadCost`, `Worker`, `Native`, `DocumentedCost`, `Straddling`, `CostWitness` | the two readers, what a read costs, the documented cost, the heads that exceed it and one of them in full |
| `Archive`, `StateAnswers`, `StoredRuns`, `StoredHistory`, `StoredReads` | the composition; accounts and code read from it; runs in a store, histories carried out in it, and their heads read back |
| `Repetition`, `RepeatedRun` | when a history writes the same records twice, and one that cannot be carried out for it |

SHA-256, Keccak-256 and zstd are function parameters. Only two laws are used: decompressing
what was compressed gives it back up to the page bound, and, where a statement says so, nothing else hashes like
an object of the run in question. A fetch is a function of the earlier requests, so a store
may answer anything at any time. Clocks are steps of the garbage-collection machine.

## Model

| member | source | states |
|---|---|---|
| RunFormat.ReadRecordHolds | codec/src/run.rs:501-511 | a record is read at a cursor exactly where its encoding stands |
| RunFormat.ParsePage | codec/src/run.rs:637-683 | the loop accepts a byte string exactly when it is the encoding of some nonempty, strictly sorted, correctly routed records, and returns those; the 17-byte count guard refuses no encoding |
| RunFormat.PageUnique | codec/src/run.rs:637-683 | a byte string is the page of at most one list of records |
| FenceIndex.ReadRefHolds | codec/src/run.rs:845-859 | an object reference is read exactly where its 36 bytes stand |
| FenceIndex.IndexSize | codec/src/run.rs:691-699 | the running size equals the length of the encoded index |
| FenceIndex.DecodeIndex | codec/src/run.rs:719-782 | it accepts exactly the verified encodings of nonempty sorted fences with bounded, nonzero references; the 49-byte count guard refuses no encoding |
| FenceIndex.DecodeRoot | codec/src/run.rs:173-193 | it accepts exactly the verified roots over sixteen default or bounded references, and returns those |
| RunReader.DecodePage | codec/src/run.rs:784-815 | an accepted page verifies, unpacks within the bound and parses; a stored page of a built run always decodes to its records |
| RunReader.LeafIsIndex | codec/src/run.rs:591-626 | every fence leaf a builder emits decodes to the fences of its pages |
| RunReader.InternalIsIndex | codec/src/run.rs:145-157 | every internal root a builder emits decodes to the entries of its leaves |
| RunIdentity.IndexUnique | codec/src/run.rs:719-782 | a byte string is the index of at most one list of fences |
| RunIdentity.SameRoot | codec/src/run.rs:142-193 | where the hash separates their objects, runs under one root digest hold the same records |
| RunReader.SearchParts | codec/src/run.rs:279-306 | searching the piece chosen by first versions is searching all pieces |
| RunReader.FollowParents | codec/src/run.rs:278-288 | under an internal root the leaf fetched is the one that decides the search, if its bytes verify |
| RunReader.FindLeaf | codec/src/run.rs:276-291 | the leaf located decides the search; at most two fetches, whatever they return |
| RunReader.SearchLeaf | codec/src/run.rs:292-331 | an answer from a located leaf is the search over that leaf's records, with at most one further fetch |
| RunReader.LookupTree | codec/src/run.rs:273-331 | below a partition's root: the answer, and the exact number of fetches, one if the partition starts after the target, else two or three by whether it has an internal root |
| RunReader.Lookup | codec/src/run.rs:258-331 | at most three bounded fetches, and exactly how many when it answers; an answer is the search over the key's partition whatever bytes came back; an honest store always answers |
| Versions.SearchIsAnswer | codec/src/run.rs:321-330 | the entry before the partition point answers: newest visible version, or none |
| RunBuilder.EmitLeaf | codec/src/run.rs:591-626 | closing a leaf emits it, enters it in the parent index and keeps every buffer faithful; it is refused exactly when the parent index is full, never for order |
| RunBuilder.LeavesOrdered | codec/src/run.rs:612-616 | leaves close in key order |
| RunBuilder.AppendLeafFence | codec/src/run.rs:564-588 | a closed page is entered in the open leaf, or in a fresh one after the full leaf is closed; no record is lost; refused exactly when no leaf can take the fence |
| RunBuilder.FlushPage | codec/src/run.rs:514-561 | the emitted page is the encoding of exactly the open records, fenced by the first of them; refused exactly for the page, leaf or parent bound |
| RunBuilder.AddRecord | codec/src/run.rs:94-122 | a record is added behind the records of its partition, flushing first exactly when the page is full; refused only for a bound |
| RunBuilder.AddAll | codec/src/run.rs:83-124 | it succeeds exactly when the input is strictly sorted with nonempty keys and every addition fits; each partition then holds its records in input order |
| RunBuilder.FinishAll | codec/src/run.rs:126-140 | afterwards nothing is open in any partition and every record is still there; refused exactly when a last page or leaf exceeds its bound |
| RunBuilder.EmitRoots | codec/src/run.rs:145-158 | it always succeeds: each partition's reference is that of its root object, and what is emitted is exactly the objects of the trees |
| RunBuilder.Build | codec/src/run.rs:72-163 | it succeeds exactly when the input is strictly sorted with nonempty keys and nothing exceeds its bound; it emits exactly the objects of one well-formed tree per partition that together hold the input, and the root over them last |
| RunBuilder.SmallInputBounded | codec/src/run.rs:94-127 | records that fit one page together are never refused, if their pages compress into the page bound |
| RunCapacity.LargeInputBounded | codec/src/run.rs:94-127 | keys of at most 61 bytes, records that fit a page, pages that compress into the bound and at most eleven TiB per partition are never refused |
| RunBuilder.BuiltRepresents | codec/src/run.rs:142-193 | the emitted root decodes to a directory of exactly the built trees |
| RunBuilder.BuiltAnswer | codec/src/run.rs:258-331 | searching a key's partition answers for the whole input |
| RunBuilder.OpenAndLookup | codec/src/run.rs:72-331 | build, decode and look up: at most three fetches, answers are the input's newest visible versions, an honest store always answers |
| ReadAhead.Ahead.constructor | src/compact.rs:58-79 | every listed page has a position in the order map that names it; nothing waits |
| ReadAhead.Ahead.Fetch | src/compact.rs:26-38 | fetched bytes match the reference in length and digest; a serving store never fails |
| ReadAhead.Ahead.Get | src/compact.rs:81-103 | returned bytes carry the digest asked for; the state it leaves is recorded; taking pages in list order keeps every list's window; failure changes nothing |
| ReadAhead.AtMostSeven | src/compact.rs:45-56 | at most seven pages of a list wait in memory |
| RunScanner.OpenRoot | codec/src/run.rs:373-385 | reading the partition root leaves what remains to be returned unchanged |
| RunScanner.NextLeaf | codec/src/run.rs:391-409 | the next leaf is opened in order and matches its parent |
| RunScanner.NextPage | codec/src/run.rs:408-438 | the next page is taken in order; the order checks cannot fire on a built run |
| RunScanner.Ready | codec/src/run.rs:368-440 | afterwards the next record is buffered unless nothing remains |
| RunScanner.Choose | codec/src/run.rs:460-466 | the chosen partition has a smallest front, and none is chosen only when all are empty |
| RunScanner.FrontIsNext | codec/src/run.rs:460-466 | the smallest front is the first record of the run still to come |
| RunScanner.Scanner.Next | codec/src/run.rs:446-474 | it returns the records of the run one by one in global order, then none; a failure is permanent; an honest store never fails |
| RunScanner.ScanAll | src/compact.rs:180-213 | scanning to the end terminates with exactly the records of the run, every page of it taken, and every state of the read-ahead keeps its windows |
| PageLists.PageObjectInjective | codec/src/run.rs:531-546 | equal page objects hold equal records |
| PageLists.ListsDistinct | src/compact.rs:67-72 | runs that share no version list no page twice |
| PageLists.ListsApart | src/compact.rs:85-88 | an index object is never listed as a page |
| RunWalk.WalkLeaves | codec/src/run.rs:231-241 | the leaves under an internal root give its pages in scan order |
| RunWalk.WalkPartition | codec/src/run.rs:217-246 | the walk returns exactly the index references and the data pages, in scan order |
| RunWalk.WalkComplete | src/tiered.rs:448-459 | every object of a partition is found by the walk, so marking misses none |
| RunWalk.WalkSound | codec/src/run.rs:195-205 | every reference found belongs to an object of the partition |
| Merge.ChooseHead | src/compact.rs:186-202 | it picks the smallest head, and refuses exactly when a head carries the version of an earlier one and none before it is smaller |
| Merge.MergeRuns | src/compact.rs:178-215 | it succeeds exactly when no version occurs in two inputs; then it yields the sorted union, and each key once for the summary |
| Merge.MergedAnswer | src/compact.rs:145-153 | an answer over the merged records is an answer over the union of the inputs |
| RunMerge.OpenRuns | src/compact.rs:57-79 | pages listed by the walks and one scanner per run over its own lists; runs without a common version list no page twice; a store that holds the runs opens them |
| RunMerge.PullFrom | src/compact.rs:180-204 | one scanner yields the next record of its run, every other scanner is undisturbed, and every list keeps its window |
| RunMerge.MergeScanners | src/compact.rs:178-213 | over scanners that share one read-ahead the loop yields the sorted union and each key once, and with an honest store fails exactly for a shared version; every page is taken, and every state of the read-ahead keeps the windows |
| RunMerge.MergeStored | src/compact.rs:148-213 | from root bytes to merged records: the sorted union of what the runs were built from, whatever the store returns; the read-ahead it used lists exactly the pages of the runs, every one was taken, and no state of it exceeded the windows |
| RunMerge.NeverMoreThanSeven | src/compact.rs:45-56 | in no state of such a read-ahead do more than seven pages of a list wait |
| RunMerge.Compact | src/compact.rs:148-241 | the run written from stored runs holds their sorted union; with an honest store it is refused exactly for a shared version or by the builder |
| RunMerge.ScanBuilt | codec/src/run.rs:368-475 | building a run and scanning it through the read-ahead gives the input back in order; every page was taken through it and no state exceeded the windows |
| History.MergedLookup | src/tiered.rs:366-392 | one search of the merged run equals probing the inputs newest first, for all keys and blocks |
| RunWriter.WriteSorted | src/compact.rs:115-143 | it fails exactly when the builder does; the written run holds exactly the records, its summary grants every key of them, and its shards are fixed by the keys and their number |
| RunWriter.WriteMerged | src/compact.rs:148-241 | it fails exactly when two inputs share a version or the builder refuses; the written run holds their sorted union |
| RunWriter.WrittenBacks | src/compact.rs:115-143 | everything a reader relies on holds of a written run, and its shards are uploaded at their paths |
| RunWriter.WrittenEntry | codec/src/head.rs:101-114 | the manifest entry of a written run has a power of two of shards and root bytes that match their reference |
| Bloom.SetBitExact | codec/src/summary.rs:53-60 | setting a bit sets it and changes no other |
| Bloom.Insert | codec/src/summary.rs:53-60 | afterwards the digest is contained, and a bit is set exactly when it was set before or is one of the digest's own |
| Bloom.GrownContains | codec/src/summary.rs:61-68 | what was contained stays contained as bits are added |
| Summary.ShardCountIff | codec/src/summary.rs:76-78 | the 32-bit shard count is nonzero exactly up to 2^46 keys, and then at most 32768 keys fall on each shard |
| Summary.NewFits | codec/src/summary.rs:109-125 | up to 2^46 expected keys a new builder fits its size bound |
| Summary.NewBuilder | codec/src/summary.rs:109-125 | creation succeeds with the computed shard count and size within the bound, every shard zeroed, nothing added |
| Summary.GrownMay | codec/src/summary.rs:61-68 | setting more bits denies no key that was granted |
| Summary.Builder.Add | codec/src/summary.rs:127-152 | every key added so far is granted or still pending, every bit set belongs to an added key or its group's marker, a group turns heavy exactly at its 4097th pending key, and what each shard holds is a function of the keys in order |
| Summary.GrantNeedsNeighbour | codec/src/summary.rs:127-163 | a key is granted only where some added key shares its address shard, so an empty summary grants nothing |
| Summary.Builder.TurnHeavy | codec/src/summary.rs:140-151 | a group that turns heavy is marked and all its pending keys reach their spill shards |
| Summary.Builder.Flush | codec/src/summary.rs:154-163 | afterwards no key is pending and every added key is granted |
| Summary.Builder.Finish | codec/src/summary.rs:174-202 | every added key is granted, and each shard is encoded at its own path |
| Summary.SumsOne | codec/src/summary.rs:174-202 | the keys, the shard count and the shard size determine every bit of a summary |
| Summary.DecodeShard | codec/src/summary.rs:211-235 | it accepts exactly the encodings for this run, kind, index and shard count, and returns their bits |
| Head.Decode | codec/src/head.rs:80-118 | it accepts exactly the manifests with bounded levels and backlog, level weights that are digits of their unit, and runs contiguous from genesis to the head |
| Commits.DecodedIff | codec/src/head.rs:80-118 | the manifests accepted, counted out: at most sixteen L0 runs of one package each, at most eight levels of one to seven units of four times a power of eight, and each run starting where the one before ends, from block 0 to the head's block |
| Head.FindTarget | src/tiered.rs:343-365 | the loop computes the cascade, absorbs the levels below the target newest first and empties them |
| Head.CascadeIsIncrement | src/tiered.rs:343-365 | a cascade passes exactly the sevens, lands on the first smaller digit and adds one; it is too deep exactly when all digits are seven, and capacity is never exceeded |
| Head.CascadeWeight | src/tiered.rs:343-365 | the landing run weighs what was carried and absorbed |
| Ledger.PlanCompaction | src/tiered.rs:336-392 | the levels planned are those of the cascade with the merged run at its target |
| History.MergedFaithful | src/tiered.rs:366-389 | the merge of contiguous runs holds exactly the events of their joint interval |
| History.Mergeable | src/tiered.rs:366-380 | inputs of a compaction are adjacent and share no version, so neither bail fires |
| History.ReadIsAnswer | src/tiered.rs:650-669 | probing contiguous runs newest first gives the answer over all their events |
| History.FlatStable | src/tiered.rs:229-331 | packages published later change no earlier answer |
| Commits.AppendKeeps | src/tiered.rs:287-313 | an append keeps a head in step with the packages published |
| Commits.CompactKeeps | src/tiered.rs:384-408 | a compaction keeps a head in step with the same packages |
| Commits.CompactionRefusedOnlyWhenFull | src/tiered.rs:343-392 | a compaction is refused only by the level bound, and that only when all eight digits are seven |
| Commits.HeadReadsFlat | src/tiered.rs:650-669 | a head reads every block up to its number as the flat history of its packages |
| Commits.EveryHeadReadsFlat | src/tiered.rs:229-410 | every head ever committed reads as the flat history of all packages published by the end |
| Growth.CommitAdvances | src/tiered.rs:287-408 | every commit raises the number or keeps it and shortens the backlog |
| Growth.LogAdvances | src/store.rs:546-600 | no head content repeats in a history |
| Growth.LogParents | src/tiered.rs:78-96 | the parent of every committed head is the head committed just before it |
| Growth.LevelsAreDigits | codec/src/head.rs:121-123 | the levels are the base-8 digits of compacted epochs over four |
| Growth.SamePlanCommitsOnce | src/tiered.rs:393-408 | two compactions planned from the same levels never both commit |
| Growth.RewritesBounded | src/tiered.rs:343-392 | an epoch at level i with digit d was rewritten at most 7i + d times |
| Growth.BoundBound | codec/src/head.rs:11-13 | that is at most 56 in any lifetime |
| Store.MemoryStore.PutImmutable | src/store.rs:205-218 | it creates, accepts an identical object, refuses a different one, and never overwrites |
| Store.MemoryStore.ReadMutable | src/store.rs:220-231 | what is read is the newest write of the key, under the version that only this write was given |
| Store.MemoryStore.Delete | src/store.rs:171-178 | only the entry goes; every other entry and every issued version stays |
| Store.MemoryStore.CompareAndSwap | src/store.rs:254-274 | it succeeds exactly on the expected version, and otherwise changes nothing |
| Store.SwapMeansUnchanged | src/store.rs:128-140 | a swap on a version read earlier matches exactly when the key was not written since |
| Protocol.EveryRunOk | src/tiered.rs:229-410 | every state of every interleaving is a valid history with consistent processes |
| Admission.EveryRunGated | src/tiered.rs:248-257 | in every run a publisher past its first read that has not failed has a gate naming the number and the hash of its package's last block, at offset 0, and every committed package was brought by such a publisher |
| Admission.OtherGateStops | src/tiered.rs:248-257 | any other gate stops the publication, whatever is stored, and writes nothing |
| Admission.PublishedReturns | src/tiered.rs:258-264 | a package that the stored head names by genesis, last number, last hash and input is reported published after one read, and nothing is written |
| Admission.EveryRunChained | src/tiered.rs:239-277 | in every run the committed packages are one chain: an anchor at block 0 with the genesis hash and a zero parent, then deltas of the same genesis, each naming the last block before it as preceding block and as parent, blocks linked by number and hash throughout; the stored head names the last block, its state root and its input |
| Admission.CompactorIdle | src/tiered.rs:336-342 | without a head or with fewer than four L0 runs a compactor reports that there is nothing to do, and writes nothing |
| Protocol.ContentCasIsVersionCas | src/store.rs:546-600 | conditional updates by content digest and by unique version give the same run, step by step |
| Protocol.EveryRunReadsFlat | src/tiered.rs:229-410 | in every run every committed head is well formed and reads as the flat history |
| Protocol.EveryRunAppendsOnce | src/tiered.rs:258-328 | a publisher that returns success has its package committed, and no package is committed twice |
| Protocol.EveryRunPlans | src/tiered.rs:343-392 | in every run the capacity bail is unreachable and a plan fails only when all digits are seven |
| Protocol.EveryRunCompactsOnce | src/tiered.rs:393-408 | in every run two compactions from one plan never both commit |
| Protocol.EveryRunRewrites | src/tiered.rs:343-392 | in every run no package is rewritten more than 56 times |
| Protocol.PublisherCommits | src/tiered.rs:258-328 | an undisturbed publisher with a package that continues the head commits it in two steps; after a lost acknowledgement a third step finds it committed, once |
| Protocol.CompactorCommits | src/tiered.rs:336-408 | an undisturbed compactor with a plan commits it in three steps |
| Contention.PublisherContends | src/tiered.rs:258-331 | among any compactors and with any swap faults, a publisher that finds a head it continues succeeds, with its package committed once, exactly when one of its 32 attempts is not lost (its one attempt, where no head is stored); otherwise it fails and the history is unchanged |
| CompactorContention.CompactorContends | src/tiered.rs:336-410 | among any publishers and with any swap faults, a planned compaction is committed, once, exactly when one of its 32 attempts is not lost; the committed head has the planned levels and exactly the L0 runs behind the first four, appended ones included; the compactor reports success, or an error if the acknowledgement of that swap was lost; if every attempt is lost it fails and nothing is compacted |
| GarbageCollection.EveryRunOk | src/tiered.rs:493-554 | under the age condition every interleaving keeps every object the head reaches |
| GarbageCollection.CollectionIsSafeIff | src/tiered.rs:433-439 | collection is safe in all interleavings if and only if test and deletion are one step and the minimum age exceeds re-stamping age plus deadline |
| GarbageCollection.UnconditionalDeleteIsUnsafe | src/tiered.rs:489-492 | a schedule in which an object is deleted between its re-check and its use by a new head |
| GarbageCollection.ShortGraceIsUnsafe | src/store.rs:25-31 | a schedule in which a reused object reaches the minimum age before its writer swaps |
| GarbageCollection.ShippedAgesAreNotEnough | src/tiered.rs:436-439 | three hours do not exceed one hour plus two hours |
| GarbageCollection.GarbageIsCollected | src/tiered.rs:493-554 | an undisturbed pass deletes an unreachable old object and leaves the head alone |
| GarbageCollection.CommitReusesRuns | src/tiered.rs:287-313 | a commit reaches only runs of the head it replaces and the run its writer built |
| Coexistence.OneRunAdded | src/tiered.rs:287-408 | a commit adds at most one run to the head it replaces |
| Coexistence.Projections | src/tiered.rs:229-554 | a run of publishers, compactors and collectors together is a run of the protocol beside a run of the collector's machine |
| Coexistence.HeadsAgree | src/tiered.rs:442-472 | in every such run the objects the collector holds live are those the runs of the protocol's head are stored as |
| Coexistence.EveryRunStored | src/tiered.rs:474-554 | under the age condition every object of every run of the current head is in the store, in every interleaving |
| Coexistence.MarksLayOut | src/tiered.rs:442-464 | what the collector marks for a run is everything a reader of the run asks for |
| Coexistence.ReadCurrent | worker/src/core.rs:219-235 | a read of the current head, beside any publishers, compactors and collectors, answers as the flat history |
| Keys.KeysInjective | codec/src/head.rs:130-147 | different accounts, slots and code blobs have different keys |
| Keys.StateExact | codec/src/head.rs:157-185 | decoding accepts exactly the encodings of live states and clean tombstones, and inverts them |
| Lifetimes.Journal.Lifetime | tools/base-export/export.py:65-80 | the incarnation never falls and rises, by one, exactly when a destroyed account reappears or a living one was wiped; it is refused exactly when the journal disagrees about the account's existence, and then the journal is left alone |
| Lifetimes.Journal.ConvertBlock | tools/base-export/export.py:177-197 | one block's events in order, or a refusal; no account falls back to an earlier life, and every storage event is written under the current one |
| Lifetimes.BlockKeeps | tools/base-export/export.py:178-197 | a consistent block is accepted, and journal and archive keep following the flat state |
| Lifetimes.EveryBlockReadsFlat | tools/base-export/export.py:65-80 | after every block of every consistent history account-first reads give the flat account and slot: no earlier lifetime is visible |
| Exports.WrittenAnswers | tools/base-export/export.py:178-197 | the records of an export answer at every block as the archive stood then |
| Exports.WrittenUnique | tools/base-export/export.py:178-197 | an export holds one version per key and block |
| Exports.ExportReadsFlat | src/tiered.rs:670-714 | reading exported records account first gives the flat slot, nonce, balance and code hash after the block, and no live account where the flat state has none |
| Normalized.OpenKeeps | src/normalized.rs:175-208 | a block opens only as the successor, by number and hash, of the one before, or of the block a delta names |
| Normalized.AccountAdded | src/normalized.rs:209-252 | an account record of the open block, new to it, keeps every block's accounts unique |
| Normalized.StorageAdded | src/normalized.rs:253-278 | a storage record of the open block, new to it, keeps every block's slots unique |
| Normalized.CodeAdded | src/normalized.rs:279-298 | a code blob under its own hash, new to the package, keeps code unique |
| Normalized.Parse | src/normalized.rs:147-374 | the loop and the final checks read exactly the package that the line-by-line definition gives, and what is accepted is one chain with all events inside, unique per block |
| Normalized.StepKeeps | src/normalized.rs:170-329 | every accepted line keeps one chain of blocks, events inside it, and one event per key and block |
| Normalized.ParsedAccepted | src/normalized.rs:147-374 | an accepted package is one chain of blocks with all events inside, unique per block, matching its header and trailer |
| NormalizedGrammar.ParsedIff | src/normalized.rs:147-374 | the parser accepts exactly the packages of a grammar that mentions no parser state: each line in an open block of its number, events sorted within the block, code under its own hash and new to the package, each block end counting the lines since its block began, the trailer naming the last block's number and hash and the number of blocks; it returns the blocks and events of the lines in their order |
| Normalized.WrittenParses | tools/base-export/export.py:172-206 | blocks written as the exporter writes them, with their trailer, parse back to exactly themselves |
| ExportPackages.ChunkAccepted | tools/base-export/export.py:177-203 | the events of a block, written in the exporter's order, form a block the parser accepts |
| ExportPackages.ExportParses | tools/base-export/export.py:153-206 | what the exporter writes for a range of blocks parses back to exactly those blocks |
| ExportPackages.ExportIsPublished | tools/base-export/export.py:147-206 | packages cut from an export, baseline first, publish exactly the records of its history and its code |
| Packaging.SortIsSorted | src/tiered.rs:167-168 | records with different versions sort strictly, and none is lost or invented |
| Packaging.PackageRecords | src/tiered.rs:120-169 | the sorted events; refused exactly when an event lies outside the interval, a code blob is too long or not under its hash, or the staged bytes exceed the bound |
| Packaging.AcceptedIsPublishable | src/tiered.rs:120-169 | of an accepted package the interval check and the builder's order check never fire, and what is published is exactly its events |
| Packaging.ValidateLifecycle | src/tiered.rs:178-212 | it accepts exactly the packages that pass the lifecycle check of `Packaging.LifecycleIff` |
| Packaging.LifecycleIff | src/tiered.rs:178-212 | the check in terms of newest account records: wherever a storage record has one in its package, a live one has its incarnation and a dead one admits only zero; in an anchor every storage record has one, and every live account with code brings that code |
| ExportLifecycle.CutsPass | tools/base-export/export.py:147-206 | every delta cut from an export of a consistent history passes the lifecycle check |
| ExportLifecycle.BasePasses | src/tiered.rs:202-210 | the anchor of a baseline passes it exactly when it brings the code of every account that has some |
| Packaging.StorageReadsBack | src/tiered.rs:170-212 | a storage record with an account record in its package reads back its value at its block |
| Worker.Reader.Charge | worker/src/core.rs:125-134 | a GET is issued exactly within both limits, and charged then |
| Worker.Reader.Shard | worker/src/core.rs:149-168 | the shard returned is the genuine one; a cached one costs nothing, another one GET |
| Worker.Reader.MayHold | worker/src/core.rs:170-185 | the probe is exact on the genuine summary, with at most one address and one spill GET |
| Worker.Reader.SearchRun | worker/src/core.rs:192-198 | an exact search answers for the run in at most three GETs, and exactly as many as its partition asks for; a failed search is charged for the requests it issued |
| Worker.Reader.Lookup | worker/src/core.rs:187-202 | an answer is the answer over all records; its GETs are exactly the shards probed down to the run that answers and the fetches of its searches; without false positives at most two runs are searched |
| Worker.Reader.AccountAt | worker/src/core.rs:204-217 | the live account of the records at the block, within its GETs |
| Worker.Reader.StorageAt | worker/src/core.rs:219-235 | the slot of the records at the block, with its exact number of GETs; at most 2 * runs + 12 further GETs without false positives, at most 10 * runs with them; without them the budget never trips |
| Worker.Reader.CodeAt | worker/src/core.rs:237-254 | the code of the records at the block, with its exact number of GETs: empty for an absent account, else the recorded bytes that hash to the account's code hash; an honest store always answers when they are recorded |
| Worker.AccountLight | codec/src/summary.rs:35-45 | the account group of an address is never heavy |
| Worker.MarkersApart | codec/src/summary.rs:41-45 | no key of an account, a slot or code is the marker of a heavy group, and different groups have different markers |
| Native.Reader.Lookup | src/tiered.rs:650-669 | an answer is the answer over all records; blocks past the head are refused; without false positives at most 2 * runs + 6 GETs even if the cache forgets everything |
| Native.Reader.Account | src/tiered.rs:670-692 | the account version of the records at the block, tombstones included; without false positives an honest store always answers |
| Native.Reader.Storage | src/tiered.rs:693-714 | the slot of the records at the block; at most 4 * runs + 12 GETs without false positives, and no valid head trips the budget |
| Native.Reader.Code | src/tiered.rs:715-735 | the code of the records at the block: empty for an absent account, else the recorded bytes that hash to the account's code hash; an honest store always answers when they are recorded |
| StateReads.CodeOfIff | worker/src/core.rs:237-254 | code is read exactly when the account decodes and its code, if it has some, is recorded within the limit under its own hash; it is empty for an absent account and hashes to the code hash of a live one |
| Native.Parity | worker/src/core.rs:170-254 | whenever both readers answer, storage and code are equal and the Worker's account is the native one filtered to live |
| DocumentedCost.SearchesIff | worker/src/core.rs:187-202 | without false positives a key is searched in at most two runs, and in two exactly when a run around the block holds it only later and an older run holds it too |
| DocumentedCost.DocumentedIff | worker/README.md:87-93 | 1 + runs + 6 GETs cover a cold account-plus-storage read exactly when its spill shards and vain searches cost no more than unprobed runs and searches shorter than three GETs save |
| DocumentedCost.VainIff | worker/src/core.rs:187-202 | without false positives an answered key is searched in vain exactly when it is straddled, and an unanswered one is searched at most once |
| DocumentedCost.VainExact | worker/src/core.rs:187-202 | without false positives a key costs in vain exactly one search of the run around the block that holds it only later, by that run's own tree, and nothing if there is none |
| DocumentedCost.ExactIff | worker/README.md:87-93 | without false positives 1 + runs + 6 GETs suffice exactly when spill shards and one search of each key's late run cost no more than unprobed runs and short searches save |
| DocumentedCost.DocumentedSuffices | worker/README.md:87-93 | they suffice without false positives when no started run has many slots of the address and neither key is straddled |
| DocumentedCost.FullReadIff | worker/README.md:87-93 | for a read that probes every run and takes three GETs per answer, they suffice exactly when no spill shard is fetched and neither key is straddled |
| DocumentedCost.ReadWithin | worker/src/core.rs:219-235 | the Worker's own counter obeys these statements |
| Straddling.CrossedCosts | worker/src/core.rs:187-202 | a key that an older run answers and a run around the block holds only later, past the start of its partition, takes at least four fetches |
| Straddling.StraddledExceeds | worker/README.md:87-93 | with any hash and any number of started runs, a read whose two keys both cross the block, one down to the oldest run, takes at least two GETs more than documented |
| Straddling.ReadExceeds | worker/src/core.rs:219-235 | the Worker's own counter shows it |
| CostWitness.ExceedingRead | worker/README.md:87-93 | a head of two runs and a block for which the Worker issues 11 GETs, two more than documented |
| Archive.EveryRunAnswers | src/tiered.rs:573-592 | the records behind any head of any run answer as the flat history, from at most 24 runs |
| Archive.ReadAnyHead | worker/src/core.rs:219-235 | a cold Worker read of any head of any run: flat answers, at most 1 + 2 * runs + 12 GETs without false positives, no budget tripped |
| Archive.EveryRunReadsState | src/tiered.rs:670-714 | when the packages of a run are the export of a consistent history, any head answers storage, nonce, balance and code hash as the flat state after the block, and no live account where that has none |
| Archive.ReadState | worker/src/core.rs:219-235 | from bytes to state through the Worker: an answer is the slot of the flat state after the block, and an honest store gives it |
| Archive.ReadStateNative | src/tiered.rs:693-714 | the same through the native reader |
| StateAnswers.ReadAccount | worker/src/core.rs:204-217 | from bytes to state through the Worker: an account is answered exactly when the flat state after the block has it, with its nonce, balance and code hash |
| StateAnswers.ReadAccountNative | src/tiered.rs:670-692 | the same through the native reader, which also shows tombstones |
| StateAnswers.EveryRunReadsCode | src/tiered.rs:715-735 | any head of any run that publishes an export answers code as the flat account has it: empty without one or with the empty code hash, else the published bytes under that hash |
| StateAnswers.BlobsPublished | src/tiered.rs:155-166 | the code records published are exactly the blobs of the export, each with its bytes at its block |
| StateAnswers.ExportReadsCode | src/tiered.rs:715-735 | with the code blobs of the export, the code read at a block is the bytes of the blob under the flat account's code hash |
| StateAnswers.ReadCode | worker/src/core.rs:237-254 | from bytes to code through the Worker: an answer is the code of the flat account, and an honest store gives it |
| StateAnswers.ReadCodeNative | src/tiered.rs:715-735 | the same through the native reader |
| Archive.EveryRunReadsBack | src/tiered.rs:178-212 | a storage record that passed the lifecycle check reads back its value at its block from the committing head and every later one |
| StoredRuns.PutAll | src/compact.rs:106-112 | it succeeds exactly when no name is taken by other bytes, keeps what was stored and adds nothing else |
| StoredRuns.KeptServes | src/compact.rs:114-143 | everything a reader relies on holds of a stored run: its view, its genuine shards, its objects |
| StoredRuns.RoomIff | codec/src/summary.rs:80-91 | a written run finds all its names free exactly when it does not repeat earlier records with as many shards of another size; no object name is ever taken by other bytes |
| StoredRuns.MergeKept | src/tiered.rs:377-380 | stored runs without a common version, merged from their bytes, give the run of their sorted union, sized for the sum of their keys; refused exactly when that cannot be written |
| StoredHistory.CommitAdds | src/tiered.rs:285-408 | every run of a new head is the one its commit adds or a run of the head before |
| StoredHistory.StoreCommit | src/tiered.rs:285-392 | carrying out a commit leaves every run of the new head stored; refused exactly when its run cannot be written, stopped exactly when it repeats records with shards of another size |
| StoredHistory.Replay | src/tiered.rs:229-410 | carrying out a history leaves every head of it stored exactly when every run can be written and none repeats an earlier one's records with as many shards of another size; otherwise it stops at the first commit that fails one of these |
| Repetition.FullNeverRepeats | src/tiered.rs:343-392 | where every package holds a record, no commit adds the records of an earlier one |
| Repetition.FullClear | src/tiered.rs:343-392 | such a history is carried out to its end unless a run cannot be written |
| RepeatedRun.SecondMergeIsTaken | codec/src/summary.rs:80-91 | four packages over the same keys, a compaction, four packages without events, a compaction: the second merge has the first one's records and paths and expects a quarter of its keys, so its shards find their paths taken |
| StoredReads.HeadServed | src/tiered.rs:574-592 | the runs opened from the stored roots stand for the head, are backed, and are served by the store |
| StoredReads.ReadInStock | worker/src/core.rs:219-235 | a storage read of a stored head answers with the flat state after the block, and always answers without false positives |
| StoredReads.StoreAndRead | src/tiered.rs:229-714 | from an empty store through all commits of a run of the protocol to a read of any of its heads: complete exactly when the history can be carried out, and then the slot of the flat state after the block, from the stored runs of that head |
| StoredReads.ReadCurrentInStock | worker/src/core.rs:219-235 | a read of the current head from what collectors left of the store answers as the flat history |
| StoredReads.StoreAndReadCurrent | src/tiered.rs:229-714 | the same beside collectors: the commits of a joint run are carried out, and the current head is read from what collectors left |

## Left out

- JSON, hex, UTF-8 and quantity parsing: lines are taken as parsed records with numbers and byte strings.
- zstd, SHA-256 and Keccak-256: function parameters with the laws named above; the decoder's window and its truncation above the page bound are part of the decompression parameter.
- Chain identifiers, the schema string, timestamps and `start_block`/`end_block` of a segment: one chain is modelled, and the fields are copied unchanged.
- A head's parent is the earlier head itself, where the source holds its digest; a run in the manifest is its records, where the source holds a root reference (`StoredHistory.Replay` carries along what was written for each run).
- Block numbers in the manifest are unbounded naturals; records, events and views use 64-bit numbers, and lengths 32-bit ones.
- Uploads, staging of head copies and channel concurrency inside one merge: a producer, a builder and an uploader in sequence, with failure meaning no run.
- Filesystem, S3 and R2 details of the store: only atomic put, read, conditional update, list and delete.
- Merge.MergeRuns: takes its inputs as sequences; `RunMerge.MergeScanners` is the same loop over scanners of stored runs.
- Head.Decode: the magic string and hexadecimal decoding are outside its contract; the shard count, root length and root digest of an entry are stated by `RunWriter.WrittenEntry`.
- Summary.NewBuilder: asks for at most 2^46 expected keys, because beyond that the truncated shard count is zero and the source divides by it (`Summary.ShardCountIff`); masking with a power of two minus one is written as a remainder.
- Packaging.LatestAccount: one scan for the newest record instead of grouping, sorting and searching backwards, with the same choice between records of one block.
- GarbageCollection: the writers' deadline is a parameter. In the source a compaction tests it before its update loop and a publication has none, so that writers meet it is an assumption about the deployment.
- Coexistence.ReadCurrent: the read happens while its head is current; readers pinned to a superseded head may lose its objects, as the source says.
- Listing `objects/` and `summaries/` is one step of a collection pass, where the source lists them one after the other.
- CostWitness.ExceedingRead: uses a toy hash that puts every key into one partition, so that its digests can be computed; `Straddling.StraddledExceeds` holds for every hash.
- StoredHistory.Replay: commits are carried out one after the other in the order they took effect, each writing its run just before; uploads of runs whose commit never took effect are left out.
- A comment at codec/src/summary.rs:80-81 asks that equal run roots built with different summary sizing do not collide. The path carries the shard count only, so with equal counts and different shard sizes they do (`RepeatedRun.SecondMergeIsTaken`); the model follows the code.
- Copies of superseded heads kept by the collector, dry runs and its report.
- Bloom false-positive rates: the cost statements assume no false positive about the keys of the request.
- The HTTP gateway, JSON-RPC dispatch, command line, genesis anchor generation and the replay probe, whose output is the exporter's input assumption (`Lifetimes.StepAt`).
