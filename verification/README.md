# Verified core of Burrow

A Dafny model of the parts of Hyperledger Burrow whose correctness is a statement about whole runs or about
every input, with proofs. `dafny verify dfyconfig.toml` checks the project.

## What is modelled

- **Validator ring** (`RingModel`, `RingReports`, `RingHistory`, `RingAnswer`, `RingPersist`, `ValidatorSets`,
  `ValidatorRing`). A ring buffer of per-block power changes with a one-third flow limit. The ring is a value with pure
  steps; the class `Window` works in place on arrays of shared `Set` objects and is proved to act as the value does. The
  main results hold over every run: how much power a rotation can move, how much stays in common, that the ring is
  a window of the full history, and what a restored ring can answer.
- **Layered store** (`Bytes`, `KeyDomain`, `MultiIterator`, `UniqueIterator`, `KVCache`, `CacheModel`, `CacheDB`,
  `Prefix`, `KeyFormat`, `CachedPrefix`). A tombstoning cache over a backend, merged by a heap of iterators and
  de-duplicated, behaves as one plain sorted map, whose iterators also list with a nil value what was deleted since the
  last commit; prefixes are intervals; key formats invert and preserve order, so iterating over a format in a cached
  store lists its tuples in order.
- **Double-sign guard** (`SignGuard`). Safety over every sequence of requests.
- **Account state cache** (`Accounts`, `StateModel`, `StateSync`, `SyncOrder`, `StateCache`). A write-back cache,
  possibly over another one, agrees with direct writes after Sync and leaves no trace when dropped.
- **SendTx** (`SendModel`, `SendLaws`, `SendRule`, `SendContext`, `SendState`). Who may send what, token
  conservation with 64-bit totals, exactly when it fails, and down to the plain state below a cache.
- **Query language** (`QueryGrammar`, `QueryParser`, `QueryLocality`, `QueryShapes`, `QueryReader`, `QueryJoin`,
  `QueryBuilder`, `QueryPrinting`, `QueryText`, `QueryLanguage`, `QueryRoundTrip`, `Query`, with `Utf8`). The grammar
  is a set of functions with ordered choice; the language is also described by where the characters stand, and the two
  are proved to be the same. The generated parser, with its switches, backtracking and token stack, is proved to match
  it. It counts characters while the reader cuts bytes, so printing and parsing are inverse, and joining queries with
  AND is conjunction, for ASCII.
- **Event index** (`PubSub`). Two maps driven by commands stay inverse to each other and no channel is closed twice
  or sent to after closing.
- **Permission codec** (`Varint`, `WireFormat`, `Permissions`, `PermissionRecords`). A nested length-prefixed wire form
  in the "Base 128 Varints" encoding of the Protocol Buffers encoding guide, written into and read from byte buffers,
  with unknown fields skipped and passed on.
- **Two's complement** (`Powers`, `Integers`). 256-bit conversions and sign extension.

`Sums`, `Sorting`, `Options`, `WordSizes` and `Addresses` hold shared definitions.

Where the code and its comments disagree the model follows the code. Creating an output account demands the
creation permission of every account collected so far, earlier outputs included, although the comment speaks of
inputs only (execution/contexts/send_context.go:39-41). A refused power change is undone to the flow of the head's
power, which is zero for a validator not yet changed in the block (acm/validator/ring.go:99-101). The restored ring
does not know how many buckets are populated (acm/validator/ring.go:258-273). Errors of UpdateAccount are ignored
when a SendTx is written back (execution/contexts/send_context.go:71-73). Iterators whose bounds run against their
direction are not invalid, as the interface says (storage/kvstore.go:14-26), but walk the other way. Each of these
has its exact consequence among the results below.

Inputs from outside are parameters: `sign` of the guard, the library's acceptance of floats, times and dates, the
verdict on one condition, the queries a message matches and the channels that have room.

## Model

| member | source | states |
|---|---|---|
| RingModel.RotationBounded | acm/validator/ring.go:83-167 | In every run of AlterPower and Rotate from a ring with non-negative powers, refused changes included, a rotation moves no power at all or at most a third of the old total less one (sum of absolute differences) |
| RingModel.RotationOverlap | acm/validator/ring.go:119-167 | In every run from a ring with positive total power, each rotation leaves more than two thirds of the old power in common (sum of minima), and the total never reaches zero |
| RingModel.RunSafe | acm/validator/ring.go:83-167 | Every run keeps the flow invariant: each tracked flow is the distance from current power to head power, the head's changes add up to less than a third, and powers stay in range |
| RingModel.AlterPowerSafe | acm/validator/ring.go:83-117 | AlterPower keeps the flow invariant on all four outcomes, including the undo after a refusal |
| RingAnswers.AlterExactly | acm/validator/ring.go:83-128 | The answer to every change from any ring: negative powers and powers from 2^63 on are refused with the ring unchanged; if the other validators' flows plus the distance from the current power pass a third of the total less one the flow is exceeded and the next set is the same; otherwise the answer is that distance, that validator has the new power in the next set and no other changes |
| RingAnswers.BlockMoves | acm/validator/ring.go:83-167 | From a ring whose head has no changes, the power a rotation moves is exactly the sum, over validators, of the flow answered to the last accepted change since |
| RingAnswers.EveryBlockMoves | acm/validator/ring.go:83-167 | In every run from a new ring each block moves exactly that |
| RingAnswers.NewRingMeaning | acm/validator/ring.go:32-51 | A new ring has the given number of buckets, one at least, and answers with the initial set at every delay |
| RingAnswers.NoIdleValidators | acm/validator/set.go:47-64 | In every run no set the ring holds lists a validator without power |
| RingModel.OverlayMoved | acm/validator/ring.go:144-156 | The power moved by a rotation is exactly the sum of the distances of the head's entries from the current set, zero entries trimmed or not |
| RingModel.NewRingSafe | acm/validator/ring.go:32-51 | A new ring meets the invariant and its current set is the initial set |
| RingModel.RunKeepsPower | acm/validator/ring.go:83-167 | A ring with positive total power has positive total power after every run |
| RingModel.RemainderIsMod | acm/validator/ring.go:193-196 | The bucket index by repeated subtraction is the remainder the source computes |
| RingReports.ChangeReportExact | acm/validator/ring.go:161-162 | Rotate reports the true change of total power if and only if the window has a second bucket or the head's pending powers less the current ones add up to zero, which can be seen before rotating |
| RingReports.OverlayTotal | acm/validator/ring.go:144-156 | Laying the head over the current set changes its total by the sum of new less old power over the head's entries, zero entries trimmed or not |
| RingReports.ChangeReportMissing | acm/validator/ring.go:161-162 | With a window of one, a run that raises power from 9 to 10 is reported as no change |
| RingReports.FlowReport | acm/validator/ring.go:91-110 | The total flow Rotate reports is never less than what moves, and equal to it if and only if every validator whose changes were all refused has zero power |
| RingReports.FlowOverstated | acm/validator/ring.go:97-110 | A concrete run in which a refused first change makes Rotate report nine units of flow though nothing moves |
| RingReports.RefusalUndone | acm/validator/ring.go:97-107 | A refused change leaves the ring as it was if and only if that validator already had a tracked flow in the block; otherwise its whole current power is counted as flow |
| RingReports.RefusalLeavesFlow | acm/validator/ring.go:97-107 | A concrete refused change that alters the ring: the validator's whole power stays behind as flow |
| RingReports.SmallRingsFrozen | acm/validator/ring.go:119-128 | With less than six units of total power no run changes any validator's power |
| RingReports.LargeRingsMove | acm/validator/ring.go:83-128 | From six units on, a fresh block accepts raising any validator by one and the next set shows it |
| RingReports.IndexAges | acm/validator/ring.go:151-152 | What was k - 1 rotations back is k back after a rotation |
| RingHistory.RingIsHistoryWindow | acm/validator/ring.go:133-196 | In every run the ring is the newest window of an unbounded history: PreviousSet(k) is the set current k rotations ago while the window reaches, each retained delta carries its cumulative set to the next, and `power` is the sum of all deltas behind the head |
| RingHistory.RunRefines | acm/validator/ring.go:133-196 | The correspondence between ring buckets and history entries is kept by every operation of every run |
| RingHistory.RefinesPrevious | acm/validator/ring.go:173-178 | PreviousSet at any delay, as an entry of the history: clamped to the number of populated buckets, and the current set again at a full turn |
| RingPersist.RestoredRingEquivalent | acm/validator/ring.go:241-273 | A ring saved at any point of any run and restored gives the same answers, flows, rotation reports and current sets under every further sequence of operations, when initial powers fit 64 bits |
| RingPersist.SetRoundTrip | acm/validator/set.go:131-149 | A set survives being written out and read back if and only if its powers are unsigned 64-bit numbers |
| RingPersist.PersistSorted | acm/validator/set.go:131-149 | A set is written out by increasing address, every validator once |
| RingPersist.RestoredPreviousSet | acm/validator/ring.go:258-273 | Because the populated count is not written out, a restored ring finds the same previous set as long as the delay stays within the rotations since, nothing was populated or a whole window has passed; otherwise it answers with the very set that was current at the restore |
| RingPersist.RestoredForgets | acm/validator/ring.go:173-178 | A concrete run from a new ring after which original and restored ring disagree on PreviousSet(1) |
| RingPersist.RunFits | acm/validator/ring.go:83-167 | Every run from 64-bit powers keeps all buckets and flows within 64 bits |
| ValidatorSets.Set.ChangePower | acm/validator/set.go:49-63 | The map gets the one change, dropping a zero in a trimming set, the running total stays the sum of the map, and the signed flow is returned |
| ValidatorSets.Set.Validators | acm/validator/set.go:131-141 | The loop lists all validators in address order with the low 64 bits of their power |
| ValidatorSets.Alter | acm/validator/validators.go:63-72 | Iterating one set while changing another, or itself, overlays the second with the first, trimming target or not |
| ValidatorSets.AddOrSubtract | acm/validator/validators.go:75-96 | Iterating one set while changing another, or itself, gives each listed validator its power plus (or less) the other's; a trimming target drops zeros, any other is the sum power for power |
| ValidatorSets.Copy | acm/validator/validators.go:98-111 | The copy is a fresh set with the same powers, trimming only later changes |
| ValidatorSets.Unpersist | acm/validator/set.go:143-149 | The set rebuilt from a list of validators holds the last power listed for each |
| ValidatorRing.Window.constructor | acm/validator/ring.go:32-51 | The arrays of distinct sets are a new ring of at least one bucket |
| ValidatorRing.Window.AlterPower | acm/validator/ring.go:83-111 | Works on the shared sets in place, exactly as the ring model says, on acceptance and on each refusal; the answer and what changes are given by RingAnswers.AlterExactly |
| ValidatorRing.Window.Rotate | acm/validator/ring.go:133-167 | Replaces the buckets, totals, head and flow as the ring model says and returns its reports |
| ValidatorRing.Window.Power | acm/validator/ring.go:55-65 | The power of a validator in the next set: the head's entry if there is one, otherwise the current set's |
| ValidatorRing.Window.PreviousSet | acm/validator/ring.go:173-178 | One of the ring's own sets, holding the powers of the model's previous set |
| ValidatorRing.Window.OrderedBuckets | acm/validator/ring.go:204-213 | All buckets, the k-th one being k rotations back |
| ValidatorRing.Window.Persist | acm/validator/ring.go:241-256 | The loops write out every bucket of the ring |
| ValidatorRing.Window.Restore | acm/validator/ring.go:258-273 | The ring rebuilt from the written form, with nothing counted as populated |
| KeyDomain.SliceIsDomain | storage/kvcache.go:153-177 | Cutting a sorted key list where the scans stop leaves exactly the keys of the domain, in order |
| KeyDomain.NormalisedDomain | storage/kvstore.go:60-71 | The endpoints an iteration works with select exactly the keys within the caller's bounds, and run the way the bounds do |
| MultiIterators.MultiIterator.constructor | storage/multi_iterator.go:18-53 | The sources, sorted or not, are held in a heap of those that have something left |
| MultiIterators.MultiIterator.Next | storage/multi_iterator.go:89-96 | Removes exactly the first pair of what is still to be served, whatever order the sources come in, and keeps the heap |
| MultiIterators.MultiIterator.Current | storage/multi_iterator.go:98-108 | The root of the heap is the first pair still to be served |
| MultiIterators.MultiIterator.Down | storage/multi_iterator.go:89-96 | Sifting down restores the heap order below a node and only permutes |
| MultiIterators.MultiIterator.Up | storage/multi_iterator.go:70-72 | Sifting up the last element makes the whole slice a heap and only permutes |
| MultiIterators.MultiIterator.Heapify | storage/multi_iterator.go:33-53 | Turns any slice of iterators into a heap by permuting it |
| MultiIterators.MultiIterator.Pop | storage/multi_iterator.go:74-79 | Takes the root out and leaves a heap of the others |
| MultiIterators.MultiIterator.Push | storage/multi_iterator.go:70-72 | Puts one more iterator in and leaves a heap of all of them |
| MultiIterators.RootLeast | storage/multi_iterator.go:60-64 | No iterator in a heap is before the one at the root |
| MultiIterators.ServedSorted | storage/multi_iterator.go:33-108 | Over strictly sorted sources the merge serves all their pairs, strictly ordered by key and then by source, in either direction |
| MultiIterators.RootServes | storage/multi_iterator.go:60-108 | The root of any heap of the cursors belongs to the one source whose next pair comes first by key and position |
| MultiIterators.FirstThenSecond | storage/multi_iterator.go:33-108 | Of two sources running against the merge, the one with the earlier key is served to its end before the other |
| UniqueIterators.UniqueIterator.Next | storage/unique_iterator.go:24-31 | Skipping equal keys advances to exactly the next distinct key |
| UniqueIterators.DedupSorted | storage/unique_iterator.go:24-31 | De-duplicating a merge leaves keys in strict order |
| UniqueIterators.DedupKeeps | storage/unique_iterator.go:24-31 | Every key of a merge is served, by its entry from the first source that has it |
| KVCaches.SortedKeysInDomain | storage/kvcache.go:140-177 | The two scanning loops return the keys of the domain in the domain's own direction, and none for an empty domain |
| KVCaches.IterateMap | storage/kvcache.go:54-69 | For every pair of bounds and either direction, what is served is listed from the caller's own bounds: exactly the keys from start up to but not including end, nil being open, in ascending or descending order, going backwards from nil without the empty key; bounds against the direction are walked the other way |
| KVCaches.RangeSorted | storage/kvcache.go:140-177 | An iteration is in strict key order |
| KVCaches.RangeMember | storage/kvcache.go:140-177 | An iteration serves a pair if and only if the map holds it and the key is in the domain |
| KVCaches.RangeEmpty | storage/kvcache.go:140-177 | An iteration is empty if and only if no key of the map is in the domain, whichever way the bounds run |
| KVCaches.RangeLists | storage/kvcache.go:54-69 | Over the normalised endpoints an iteration serves exactly the keys within the caller's bounds, in strict order |
| KVCaches.KVCacheIterator.Next | storage/kvcache.go:113-118 | Advances past exactly one pair |
| CacheModel.RunRefines | storage/cache_db.go:20-75 | After any run of Set with non-nil values, Delete and Commit, Get and Has answer as a plain map does after the same run, Commit changing nothing |
| CacheModel.NilWriteLost | storage/cache_db.go:20-29 | After a nil write the key reads back as nil, and is absent, if and only if the backend does not hold it; otherwise the old value shows through |
| CacheModel.IterationAfterRun | storage/cache_db.go:36-44 | After any run of writes, deletes and commits an iteration lists the entries in bounds of the plain map after the same run, and with a nil value exactly the keys in bounds deleted since the last commit |
| CacheModel.BatchIsRun | storage/cache_db.go:65-96 | Writing a batch is the run of its operations |
| CacheModel.MergedRange | storage/cache_db.go:36-44 | For all bounds, what the de-duplicated merge of cache and backend serves: along its direction the iteration of the backend overlaid with the cache, against it one iteration after the other |
| CacheModel.AgainstMerge | storage/cache_db.go:36-44 | Against its direction the merge serves cache and backend one after the other, starting with the earlier key and repeating common keys, except that a single cached pair hides the backend's pair with the same key right behind it |
| CacheModel.RangeReadsGet | storage/cache_db.go:36-44 | Each key is served with the value Get returns for it, nil for a tombstone |
| CacheModel.ReverseMissesEmptyKey | storage/kvstore.go:60-71 | The full reverse iteration is the full forward one reversed if and only if the empty key is not stored |
| CacheDBs.CacheDB.Get | storage/cache_db.go:20-29 | A cached value, nil for a tombstone, and otherwise the backend's value |
| CacheDBs.CacheDB.Has | storage/cache_db.go:31-34 | Whether Get finds a value |
| CacheDBs.CacheDB.Set | storage/cache_db.go:46-52 | Only the cache changes, as the model's write says |
| CacheDBs.CacheDB.Delete | storage/cache_db.go:54-60 | Only the cache changes, as the model's delete says |
| CacheDBs.CacheDB.Commit | storage/cache_db.go:72-75 | Everything is written out to the given writer and the cache is empty; with the backend as writer this is the model's commit |
| CacheDBs.CacheDB.WriteBatch | storage/cache_db.go:82-96 | A batch is laid over the cache |
| CacheDBs.CacheDB.Iterate | storage/cache_db.go:36-44 | From the caller's own bounds: along the direction exactly the keys in bounds of the backend overlaid with the cache, in order with their values; against it the cache's keys in those bounds and the backend's, walked the other way, one after the other; empty if and only if neither holds a key in bounds |
| CacheDBs.WriteTo | storage/kvcache.go:72-81 | The loop writes every live entry and deletes every tombstoned key, and nothing else |
| Prefixes.PrefixInterval | storage/prefix.go:26-37 | A key starts with a prefix if and only if it is at or above the prefix and below Above of it, nil meaning no bound |
| Prefixes.PredecessorBelow | storage/prefix.go:40-51 | Below, when there is one, is strictly below the prefix |
| Prefixes.PredecessorInverts | storage/prefix.go:40-51 | Below of a prefix, whose trailing zeros are cut, is the one whose Above leads back to it, and there is none if and only if the prefix is all zeros |
| Prefixes.AboveOf | storage/prefix.go:26-37 | The loop finds the next key after all keys with the prefix, nil for all-ones prefixes |
| Prefixes.BelowOf | storage/prefix.go:40-51 | The loop over the buffer computes the lower end of a reverse iteration |
| Prefixes.PrefixIteration | storage/prefix.go:53-96 | For every prefix and all bounds both prefix iterators list exactly the stored suffixes in range with their values in strict order; bounds against the direction are walked the other way, and going down over the empty prefix misses the empty key and nothing else |
| Prefixes.PrefixIterator.constructor | storage/prefix.go:53-96 | Over a source of either kind the iterator starts on the suffixes of what the source has left, the key above skipped when going backwards |
| Prefixes.IteratePrefix | storage/prefix.go:53-96 | Over one map both prefix iterators start on the suffixes of the source's pairs |
| CachedPrefixes.IterateCached | storage/prefix.go:53-96 | Over a cached store, along their direction, both prefix iterators list in strict order exactly the suffixes in bounds of the backend overlaid with the cache; against it the suffixes of one iteration after the other |
| CachedPrefixes.TuplesListed | storage/key_format.go:216-221 | Iterating over a format of 64-bit words between two tuples lists exactly the stored tuples from the first up to but not including the second, both ways |
| CachedPrefixes.TuplesInOrder | storage/key_format.go:216-221 | They are listed in the order of the tuples, or in reverse |
| Prefixes.PrefixIterator.Validate | storage/prefix.go:180-189 | The invalid flag is raised exactly when nothing is left |
| Prefixes.PrefixIterator.Next | storage/prefix.go:154-160 | Advances past exactly one suffix |
| KeyFormats.NewKeyFormat | storage/key_format.go:99-118 | Accepts a layout if and only if all segments have positive width except perhaps a variadic last one, and says when it panics |
| KeyFormats.KeyBytes | storage/key_format.go:121-140 | The buffer filled segment by segment is prefix and segments concatenated; a wrong width is an error and a segment too many a panic |
| KeyFormats.ScanBytes | storage/key_format.go:158-174 | The loop cuts a key as the specification does, and panics exactly where that does |
| KeyFormats.ScanInvertsKey | storage/key_format.go:121-174 | Scanning a key gives back its segments, and exactly them for a full list |
| KeyFormats.KeyInvertsScan | storage/key_format.go:121-174 | A key of the format is rebuilt from its scanned segments |
| KeyFormats.FormedExactly | storage/key_format.go:121-174 | A key has the format's prefix and width, open-ended if variadic, if and only if it is built from a full list of segments |
| KeyFormats.FixThenKey | storage/key_format.go:145-155 | Key of a format with fixed leading segments is Key of all segments, errors included |
| KeyFormats.WordKeysSorted | storage/key_format.go:287-291 | For layouts of 64-bit words byte order of keys is numeric order of tuples, shorter tuples first |
| KeyFormats.SignedKeysSorted | storage/key_format.go:265-285 | Keys made of an int64 value sort as the values do if and only if these have the same sign |
| KeyFormats.BigEndianRoundTrip | storage/key_format.go:287-291 | Big-endian bytes read back as the number |
| SignGuard.NeverSignsTwice | consensus/tendermint/sign_info.go:76-184 | In every sequence of sign requests the byte strings handed to `sign` have strictly increasing height, round and step, so there is at most one for each |
| SignGuard.SuccessMatchesState | consensus/tendermint/sign_info.go:106-184 | After a successful call the message, any timestamp restored, has the stored sign bytes and the stored signature, which were signed earlier or now |
| SignGuard.OneAnswerPerSlot | consensus/tendermint/sign_info.go:106-173 | All successful answers for one height, round and step carry the same bytes and signature |
| SignGuard.SuccessExactly | consensus/tendermint/sign_info.go:76-173 | With a signer that always signs, a request succeeds if and only if it is later than the last one or repeats it up to the timestamp |
| SignGuard.AnswerExactly | consensus/tendermint/sign_info.go:16-173 | The answer to any message from the record signed last: by height, then by round, then proposal before prevote before precommit, success when later and the regression when earlier; in the same place success if and only if the message with the recorded time has the recorded bytes, and a conflict otherwise |
| SignGuard.FirstAnswer | consensus/tendermint/sign_info.go:76-101 | A new guard signs any message not below height and round zero |
| SignGuard.RoundsInOrder | consensus/tendermint/sign_info.go:16-184 | In every run the signed records go up in height and round, and those of one round are at most one proposal, then at most one prevote, then at most one precommit |
| SignGuard.SignBytesExactly | consensus/tendermint/sign_info.go:106-173 | Two messages have the same sign bytes if and only if they agree on chain, kind, height, round, content and the millisecond of their time |
| SignGuard.PanicsOnlyOnUnknownVotes | consensus/tendermint/sign_info.go:22-101 | With such a signer a call panics if and only if the vote is of unknown kind |
| SignGuard.HandleKeeps | consensus/tendermint/sign_info.go:106-184 | One call keeps stored state and signing log consistent and the log increasing |
| SignGuard.LastSignedInfo.CheckHRS | consensus/tendermint/sign_info.go:76-101 | The nested comparisons decide height, then round, then step, with the regressions, the repeat and its two failures |
| SignGuard.LastSignedInfo.Sign | consensus/tendermint/sign_info.go:106-173 | Updates the stored information and the message in place as the protocol step says, whose answer is given by SignGuard.AnswerExactly |
| StateSync.SyncAgrees | acm/state/state_cache.go:181-222 | After an error-free Sync of any cache, over plain state or another cache, the backend agrees with it on every account and on all storage of accounts it did not remove |
| StateSync.SyncSucceeds | acm/state/state_cache.go:181-222 | Over any backend, plain or itself a cache, Sync is error-free if and only if every changed entry has an account and no removed or changed entry is marked removed in the backend |
| SyncOrders.SyncInOrder | acm/state/state_cache.go:181-222 | Sync writes each removal, word and account that is due, and nothing else, by ascending address, words by ascending key and before their account, up to the first operation refused |
| StateSync.DroppingRestores | acm/state/state_cache.go:63-158 | After any run through a cache its backend still reads as before |
| StateSync.CacheReadsLikeDirect | acm/state/state_cache.go:63-158 | A run that writes to no account after removing it, nor to one marked removed below, reads through a cache over any backend as it does directly on that backend |
| StateSync.ErrorFreeExactly | acm/state/state_cache.go:76-158 | A run on a cache is refused nothing if and only if it writes to no account after removing it and to none marked removed before |
| StateSync.UntidyDiffers | acm/state/state_cache.go:76-103 | An account set again after its removal is there when done directly and gone through a cache |
| StateSync.WriteBackEqualsDirect | acm/state/state_cache.go:181-240 | Over any backend, caching such a run and then syncing is accepted if and only if all storage is set on accounts that exist, are set or are removed by the run, and then leaves the accounts and storage the direct run leaves, storage of removed accounts aside |
| StateSync.WriteBackSucceeds | acm/state/state_cache.go:181-222 | After any run that writes to nothing marked removed below, Sync is accepted if and only if all storage is set on accounts that exist, are set or are removed by the run |
| StateSync.PlainWriteBack | acm/state/state_cache.go:181-240 | Over plain state the Sync of such a run succeeds and leaves the very ledger the direct run makes |
| StateSync.RunExactly | acm/state/state_cache.go:63-158 | From empty state, directly and through a cache, every run reads as its operations say: the account last set and not removed since, the word last stored, and zero where nothing was |
| StateSync.ApplyAlike | acm/state/state_cache.go:63-158 | States that read alike still do after the same successful operation |
| StateModel.GetAccountReads | acm/state/state_cache.go:63-74 | Reading an account returns what the layers show and changes no view, though entries are filled in |
| StateModel.GetStorageReads | acm/state/state_cache.go:119-142 | Reading a word returns what the layers show and changes no view |
| StateModel.UpdateAccountWrites | acm/state/state_cache.go:76-89 | An update shows the account and changes no other view; it is refused if and only if the account was removed here |
| StateModel.RemoveAccountWrites | acm/state/state_cache.go:91-103 | A removal hides the account and changes no other view; removing twice is refused |
| StateModel.SetStorageWrites | acm/state/state_cache.go:145-158 | A write shows the word and changes no other view; it is refused if and only if the account was removed here |
| StateModel.LoadReads | acm/state/state_cache.go:250-271 | Filling in an entry from the backend changes no view |
| StateCaches.StateCache.Get | acm/state/state_cache.go:250-271 | The entry is created from the backend on first use |
| StateCaches.StateCache.GetAccount | acm/state/state_cache.go:63-74 | Changes the entries and answers as the layered model says |
| StateCaches.StateCache.UpdateAccount | acm/state/state_cache.go:76-89 | Changes the entry in place as the model says, or refuses |
| StateCaches.StateCache.RemoveAccount | acm/state/state_cache.go:91-103 | Marks the entry removed as the model says, or refuses |
| StateCaches.StateCache.GetStorage | acm/state/state_cache.go:119-142 | Reads through to the backend on first use and remembers the word |
| StateCaches.StateCache.SetStorage | acm/state/state_cache.go:145-158 | Sets the word and the updated flag as the model says, or refuses |
| StateCaches.StateCache.Sync | acm/state/state_cache.go:181-222 | The sorted loops write removed and changed entries to any output, storage before account, up to the first error |
| StateCaches.StateCache.Flush | acm/state/state_cache.go:224-240 | Syncs to any output and starts over on a given backend or on that output; after an error nothing is reset |
| SendLaws.ConservedExactly | execution/contexts/send_context.go:28-73 | An accepted SendTx conserves the sum of balances if and only if the true sums taken and credited agree; absent removed outputs it always does modulo 2^64, and exactly when neither total reaches 2^64 |
| SendLaws.RunConserves | execution/contexts/send_context.go:28-73 | Without removed accounts no sequence of transactions with 64-bit totals changes the supply |
| SendLaws.WrappedTotalsMint | execution/contexts/shared.go:85-92 | Outputs whose 64-bit total wraps around are accepted and create 2^64 units |
| SendLaws.RemovedOutputLoses | execution/contexts/send_context.go:71-73 | A concrete accepted transaction whose output goes to a removed account and is lost |
| SendLaws.EachMovesByItsLine | execution/contexts/send_context.go:60-73 | Each input loses and each output gains its own amount, and no other account changes |
| SendLaws.SupplyAfter | execution/contexts/send_context.go:60-73 | The supply changes by outputs less inputs less what goes to accounts removed earlier |
| SendLaws.PreparedAccounts | execution/contexts/send_context.go:28-69 | Acceptance means no address twice, all inputs known, equal non-zero 64-bit totals, and every listed account adjusted once; the exact condition is SendRules.AcceptedExactly |
| SendRules.AcceptedExactly | execution/contexts/send_context.go:28-73 | A SendTx is accepted if and only if inputs are known, distinct and not zero, outputs are distinct and none is an input, every input may send, every account collected before a new output may create accounts, the 64-bit totals agree and are not zero, and the balances cover and hold the amounts |
| SendRules.RefusedExactly | execution/contexts/send_context.go:28-69 | Which error is given otherwise, the first rule broken in order |
| SendRules.PermissionExactly | permission/base_permissions.go:57-63 | Flag by flag, a permission is the account's own value where that is set, otherwise the global value where that is set, and otherwise false; there are fourteen flags and no other is ever granted |
| SendRules.PermissionsTogether | execution/contexts/shared.go:130-140 | Several flags are granted together if and only if each is, and the empty set of flags never |
| SendRules.CreatedAccount | execution/contexts/shared.go:41-83 | An account created by a transaction holds what it was sent, no code and no permission of its own |
| SendLaws.ExecuteValid | execution/contexts/send_context.go:22-73 | Balances stay 64-bit numbers and accounts stay at their addresses, accepted or not |
| SendLaws.WrappedIsMod | execution/contexts/shared.go:85-92 | The running total in 64 bits is the true sum modulo 2^64 |
| SendStates.SendRefines | execution/contexts/send_context.go:22-73 | On state behind any number of caches, with reads filling them and accounts written in any order, a SendTx does to the accounts shown what it does to a ledger |
| SendStates.BlockConserves | execution/contexts/send_context.go:22-73 | A block of SendTx executed in a cache over plain state is synced without error to the ledger the transactions make, and its supply is unchanged when totals fit 64 bits |
| SendContexts.ExecuteSend | execution/contexts/send_context.go:22-84 | Checks, adjustments and write-back as the model says, accepted under SendRules.AcceptedExactly, then one event for each input and each output in order; an error leaves the state untouched and records nothing |
| SendContexts.CollectInputs | execution/contexts/shared.go:20-39 | The accounts of the inputs and their 64-bit total, or the first error |
| SendContexts.CollectOutputs | execution/contexts/shared.go:41-83 | Adds existing and new accounts, or the first error |
| SendContexts.AdjustByInputs | execution/contexts/shared.go:94-110 | Takes each amount from its own account, or fails on a low balance |
| SendContexts.AdjustByOutputs | execution/contexts/shared.go:112-125 | Adds each amount to its own account, or fails on overflow |
| SendContexts.OutputTotal | execution/contexts/shared.go:85-92 | The 64-bit total of the outputs |
| SendContexts.WriteAccounts | execution/contexts/send_context.go:71-73 | Writes all adjusted accounts in any order, ignoring refusals |
| QueryRoundTrip.RoundTrip | event/query/builder.go:115-191 | Printing a non-empty list of conditions and parsing it back yields that list if and only if every tag is non-empty and without blank, tab, line feed, carriage return, backslash, parentheses, quotes, =, > and <, every string is quote-free and used with = or CONTAINS, every integer is in [0, 2^63) and not used with CONTAINS, and all text is ASCII: token positions count characters, the reader cuts bytes |
| QueryLanguage.ParseExactly | event/query/query.peg:6-33 | A text is parsed if and only if, between two double quotes, it is conditions joined by blanks, AND in either case and blanks; a condition is a tag, blanks, an operator, blanks and an operand that fits it, each said of the characters and where they stand |
| QueryLanguage.ListingExactly | event/query/query.go:93-156 | An ASCII query lists exactly what its conditions say: tag, operator, and a string, a time, a date, a float or a whole number below 2^63, up to the first operand that is turned down |
| QueryLanguage.NameLists | event/query/query.peg:16 | Any non-empty run of letters, digits and . _ - / : followed by an operator and an operand that fits is parsed and lists as that tag |
| QueryLanguage.ConditionParses | event/query/query.peg.go:446-1024 | Wherever a condition stands, not followed by a digit or point, the parser takes all of it and records where its parts are |
| QueryLanguage.ConditionSpan | event/query/query.peg.go:446-1024 | Whatever the parser takes for a condition is one, from its first character to its last |
| QueryShapes.ReservedExactly | event/query/query.peg:16 | The characters that end a tag are the twelve: blank, tab, line feed, carriage return, backslash, two parentheses, two quotes, =, > and < |
| QueryRoundTrip.NonAsciiMisread | event/query/query.go:93-138 | A legal condition with a character beyond ASCII parses, yet its conditions are not read back as written |
| QueryRoundTrip.NonAsciiExample | event/query/query.go:93-138 | The condition that tag U+00E9 equals 1 is printed and parsed but not read back |
| QueryRoundTrip.OneParses | event/query/builder.go:238-245 | The text of one legal condition parses, whatever its characters |
| Utf8.EncodeLength | event/query/query.peg.go:263-276 | The bytes of a text are at least as many as its characters, and exactly as many if and only if it is ASCII, when they are the same |
| Utf8.EncodeCharExactly | event/query/query.peg.go:263-276 | The first byte of a character says how many there are, the others continue it, and together they carry the code point (section 3 of RFC 3629) |
| Utf8.EncodeInjective | event/query/query.peg.go:263-276 | Texts with the same bytes are the same text |
| QueryPrinting.ListingLegal | event/query/query.go:93-156 | Whatever ASCII text is parsed, every condition listed is one the grammar can express |
| QueryPrinting.OneLists | event/query/builder.go:238-245 | The text of one legal ASCII condition parses to exactly that condition |
| QueryPrinting.DecimalRoundTrip | event/query/builder.go:193-225 | A printed decimal reads back as its number and has no leading zero |
| QueryPrinting.IntRoundTrip | event/query/builder.go:193-225 | A printed integer, negative ones included, reads back as itself if and only if it fits 64 bits |
| QueryRoundTrip.NothingDoesNotParse | event/query/query.go:38-45 | The text of no conditions is not a query |
| QueryJoin.JoinParses | event/query/query.peg.go:325-445 | Two parseable queries joined with " AND " parse, to the tokens of the first followed by the shifted tokens of the second |
| QueryJoin.JoinLists | event/query/query.go:93-156 | The joined query lists the conditions of the first, stopping where one of its conversions panics, and then those of the second when the first is ASCII; after a first part beyond ASCII the later positions no longer fit the bytes |
| QueryJoin.JoinMatches | event/query/query.go:162-240 | The joined query answers as the first part where that does not hold, panics included, and as the second where it does and is ASCII |
| QueryJoin.MatchesIsConditions | event/query/query.go:162-240 | When nothing panics, Matches is true if and only if there are tags and every condition listed by Conditions holds |
| QueryJoin.AnswerIsAll | event/query/query.go:162-240 | Matches is the in-order conjunction of the listed conditions, up to the first that fails or panics |
| QueryLocality.ConditionMoved | event/query/query.peg.go:446-1024 | A condition matched in one text is matched, tokens shifted, wherever its text is copied and not followed by a digit or point |
| QueryLocality.ShortOperator | event/query/query.peg.go:650-742 | A condition with < or > is never the beginning of one with <= or >= |
| QueryShapes.ConditionShape | event/query/query.peg.go:446-1024 | The tokens of a condition are its tag text, one operator, tokens the reader ignores, one operand text and kind, with tag, operator and operand suiting each other |
| QueryShapes.FoldChunk | event/query/query.go:93-156 | Reading those tokens from any state adds exactly one condition or panics |
| QueryReader.MatchIsAll | event/query/query.go:162-240 | Matching token by token with early exit is evaluating the conditions read so far in order |
| QueryReader.Conditions | event/query/query.go:93-156 | The token walk over the bytes of any text lists the conditions or panics on the first failing conversion |
| QueryReader.Matches | event/query/query.go:162-240 | The token walk over the bytes of any text answers false at the first failing condition, and always without tags |
| QueryGrammar.ScalarByFirst | event/query/query.peg.go:674-690 | The switch on the next character is the grammar's ordered choice of number, time and date |
| QueryGrammar.ScalarOrValueByFirst | event/query/query.peg.go:765-790 | With = the switch on the next character is the ordered choice that also allows a string |
| QueryGrammar.PlainByFirst | event/query/query.peg.go:743-1013 | The switch on the operator character is the ordered choice among the remaining alternatives |
| QueryParsers.QueryParser.constructor | event/query/query.peg.go:263-276 | Starts at the first character with an empty token stack |
| QueryParsers.QueryParser.Add | event/query/query.peg.go:154-165 | Puts a token on the stack, doubling the tree when it is full, and disturbs none below |
| QueryParsers.QueryParser.Query | event/query/query.peg.go:325-445 | The parser of whole queries succeeds if and only if the grammar matches the whole text, with exactly the grammar's tokens; on failure position and stack are back at the start |
| QueryParsers.QueryParser.MoreAt | event/query/query.peg.go:337-424 | One more AND and condition as the grammar says, or position and stack put back |
| QueryParsers.QueryParser.ConditionAt | event/query/query.peg.go:446-1024 | A condition as the grammar says, or position and stack put back |
| QueryParsers.QueryParser.TagAt | event/query/query.peg.go:451-637 | The longest run of characters allowed in a tag, at least one; which these are is said by QueryShapes.ReservedExactly |
| QueryParsers.QueryParser.ComparisonAt | event/query/query.peg.go:649-1017 | The alternatives tried in order with the state put back in between |
| QueryParsers.QueryParser.PlainAt | event/query/query.peg.go:743-1013 | The alternative picked by the operator character is the grammar's choice |
| QueryParsers.QueryParser.EqualAt | event/query/query.peg.go:745-791 | An equals sign, blanks and a scalar or string |
| QueryParsers.QueryParser.ContainsAt | event/query/query.peg.go:873-1012 | CONTAINS in any case, blanks and a string |
| QueryParsers.QueryParser.ValueAt | event/query/query.peg.go:1027-1081 | A single-quoted run without quotes, or everything put back |
| QueryParsers.QueryParser.NumberAt | event/query/query.peg.go:1082-1143 | A lone zero or a numeral without leading zero and an optional fraction, or everything put back |
| QueryParsers.QueryParser.DigitRule | event/query/query.peg.go:1144-1159 | One digit and its token, or nothing |
| QueryParsers.QueryParser.TimeAt | event/query/query.peg.go:1160-1328 | A time with zone, or everything put back |
| QueryParsers.QueryParser.DateAt | event/query/query.peg.go:1329-1425 | A date, or everything put back |
| QueryParsers.QueryParser.YearAt | event/query/query.peg.go:1426-1461 | A year, or everything put back |
| QueryParsers.QueryParser.MonthAt | event/query/query.peg.go:1462-1491 | A month, or everything put back |
| QueryParsers.QueryParser.DayAt | event/query/query.peg.go:1492-1535 | A day, or everything put back |
| Queries.New | event/query/query.go:38-45 | Parsing succeeds if and only if the text between the quotes looks like a query, said of its characters alone, and then holds the grammar's tokens |
| Queries.BuildAndList | event/query/builder.go:115-191 | Building, printing, parsing and listing return the given conditions if and only if all are legal and ASCII |
| QueryBuilder.Builder.constructor | event/query/builder.go:94-98 | A new builder holds the conjunction of the non-empty queries given |
| QueryBuilder.Builder.Joining | event/query/builder.go:162-176 | The buffer loop joins the non-empty queries with AND after the builder's own and is left empty |
| QueryBuilder.Builder.ConditionString | event/query/builder.go:238-245 | Tag, operator and operand separated by blanks |
| QueryBuilder.Builder.AndCondition | event/query/builder.go:120-160 | A new builder holding the old query and the condition |
| QueryBuilder.Build | event/query/builder.go:94-160 | Adding conditions one by one prints their conjunction |
| QueryBuilder.ConjunctionLists | event/query/builder.go:94-98 | A builder made from ASCII queries that list without panic lists the conditions of all of them in order, leaving out those that are empty or say so, and is empty if and only if all are |
| PubSub.Loop | event/pubsub/pubsub.go:229-250 | For every command sequence with a fresh channel per subscribe, the loop ends with the two maps filing exactly the registry's subscriptions, no empty inner maps, and all registered channels open and distinct |
| PubSub.RunSound | event/pubsub/pubsub.go:229-330 | In every run registered channels are distinct and open, and every channel subscribed with is registered, closed or replaced, exactly one of them |
| PubSub.ShutdownClosesAll | event/pubsub/pubsub.go:238-242 | Shutdown leaves no subscription, and closes every channel ever subscribed with if and only if the commands before it never subscribe a client to the same query again without an unsubscribe of either kind in between |
| PubSub.LeaksExactly | event/pubsub/pubsub.go:252-266 | No channel is lost if and only if the commands never subscribe a client to the same query again without an unsubscribe or shutdown in between |
| PubSub.ClosedExactly | event/pubsub/pubsub.go:229-308 | In every run a channel is closed if and only if a command gave up the subscription it was held under, and lost if and only if one replaced it |
| PubSub.HeldExactly | event/pubsub/pubsub.go:229-308 | A subscription is registered with a channel if and only if the last subscribe for it that no later command ends names that channel |
| PubSub.LiveExactly | event/pubsub/pubsub.go:229-308 | A subscription is registered if and only if some subscribe for it is not ended by a later unsubscribe, unsubscribe of all, or shutdown |
| PubSub.InboxExact | event/pubsub/pubsub.go:229-330 | In every run each channel receives, in order, exactly the messages published while it was registered under a matching query and had room |
| PubSub.SubscriptionIndex.Add | event/pubsub/pubsub.go:252-266 | Both maps gain the subscription, creating inner maps as needed |
| PubSub.SubscriptionIndex.Remove | event/pubsub/pubsub.go:268-290 | Both maps lose the subscription and empty inner maps, and its channel, open until then, is closed; an unknown subscription is ignored |
| PubSub.SubscriptionIndex.RemoveAll | event/pubsub/pubsub.go:292-308 | The loop closes each of a client's channels once and takes the client out of both maps |
| PubSub.SubscriptionIndex.Stop | event/pubsub/pubsub.go:238-242 | Removing every client empties both maps and closes all registered channels |
| PubSub.SubscriptionIndex.Send | event/pubsub/pubsub.go:316-330 | The nested loops post the message once to each matching ready channel, none of them closed |
| PubSub.SubscriptionIndex.Handle | event/pubsub/pubsub.go:229-250 | Each command changes the index as the registry says |
| Permissions.RoundTrip | permission/permission.pb.go:150-542 | Decoding the wire form into an empty value returns the original, for any number and length of roles whose size fits an int, if and only if the bytes it carries along are fields of other numbers and nothing else |
| Permissions.ConcatenationMerges | permission/permission.pb.go:344-453 | Two messages one after the other decode to the second's numbers, both lists of roles and both lots of unrecognised fields |
| Permissions.DecodeMerges | permission/permission.pb.go:344-453 | An encoded message in front of any further bytes is merged and decoding goes on with them |
| Permissions.Relayed | permission/permission.pb.go:150-542 | Whatever was decoded, unrecognised fields included, is encoded to bytes that decode to the same record |
| Permissions.AccountKept | permission/permission.pb.go:435-447 | What decoding adds to the unrecognised bytes is made of whole fields of other numbers, and is all of the input only if the input is nothing else |
| Permissions.HeadExactly | permission/permission.pb.go:361-430 | What the head of a field is read as, from its bytes: the end of a group, an illegal number, a field to skip, a wrong wire type, or number and value |
| Permissions.HeadRefuses | permission/permission.pb.go:351-366 | A head that breaks off is an end of input, and one of ten bytes with their high bit set an overflow |
| Permissions.WireExample | permission/permission.pb.go:160-219 | The bytes of a concrete record |
| WireFormat.SkipLaid | permission/permission.pb.go:715-813 | A field of any wire type, groups with fields inside included, is skipped whole in front of anything else |
| WireFormat.SkipFinds | permission/permission.pb.go:715-813 | What is skipped is always such a field |
| Permissions.BaseInverts | permission/permission.pb.go:204-219 | The inner message decodes to itself over whatever was there, unrecognised fields added |
| Varints.DecodeInverts | permission/permission.pb.go:273-281 | Every 64-bit number is decoded from its varint, leaving the bytes after it |
| Varints.EncodeExactly | permission/permission.pb.go:273-281 | The varint of a number is the one string of seven-bit groups, least significant first and high bit on all but the last, of that weight and without an idle byte at its end |
| Varints.DecodeExactly | permission/permission.pb.go:351-366 | At most ten bytes, the last without its high bit, are read as their weight modulo 2^64, and what follows is left |
| Varints.DecodeRefuses | permission/permission.pb.go:351-366 | Without such a byte fewer than ten bytes are an end of input and ten or more an overflow |
| Varints.ReadFits | permission/permission.pb.go:351-366 | Whatever the input, every number read fits 64 bits |
| Varints.OrIsAdd | permission/permission.pb.go:351-366 | While the accumulator stays below the next shift, or-ing in a seven-bit group cut to 64 bits is adding it |
| Varints.LastGroup | permission/permission.pb.go:351-366 | Of a tenth byte only the lowest bit counts |
| Varints.Sov | permission/permission.pb.go:331-340 | The size loop counts the bytes of the varint |
| Varints.EncodeTo | permission/permission.pb.go:273-281 | The loop writes exactly the varint at the offset, touches nothing else and returns the offset after it |
| Varints.DecodeAt | permission/permission.pb.go:351-366 | The loop, or-ing groups, reads what the specification reads by adding, with its overflow and end-of-input errors |
| PermissionRecords.BasePermissions.Size | permission/permission.pb.go:299-308 | The length of the wire form |
| PermissionRecords.BasePermissions.MarshalTo | permission/permission.pb.go:204-219 | Writes exactly the wire form and nothing else, and returns its length |
| PermissionRecords.BasePermissions.Unmarshal | permission/permission.pb.go:454-542 | Decodes field by field into the record, keeping fields of other numbers, or returns the specified error |
| PermissionRecords.AccountPermissions.Size | permission/permission.pb.go:282-297 | The length of the wire form |
| PermissionRecords.AccountPermissions.MarshalTo | permission/permission.pb.go:160-192 | Writes exactly Size() bytes, the wire form, and nothing else |
| PermissionRecords.AccountPermissions.Marshal | permission/permission.pb.go:150-158 | A fresh buffer holding exactly the wire form |
| PermissionRecords.AccountPermissions.Unmarshal | permission/permission.pb.go:344-453 | Decodes field by field into the record, keeping fields of other numbers, or returns the specified error |
| PermissionRecords.SkipField | permission/permission.pb.go:715-813 | The skipping loop takes as many bytes as the specification says, or fails as it does |
| PermissionRecords.SkipNested | permission/permission.pb.go:774-802 | The loop over the fields of a group, up to its end |
| PermissionRecords.Transfer | permission/permission.pb.go:150-542 | A record marshalled and unmarshalled arrives as it was if and only if what it carries along is made of fields of other numbers |
| Integers.ExtendMeaning | binary/integer.go:88-103 | Sign extension from bit s gives a number in [-2^s, 2^s) congruent to the argument modulo 2^(s+1) (SIGNEXTEND, Appendix H of the Ethereum Yellow Paper) |
| Integers.ExtendUnique | binary/integer.go:88-103 | It is the only such number |
| Integers.ExtendTwice | binary/integer.go:88-103 | Extending again from a higher bit changes nothing |
| Integers.ExtendedWord | binary/integer.go:70-103 | A sign-extended value of up to 32 bytes survives conversion to an unsigned word and back |
| Integers.SignedRoundTrip | binary/integer.go:70-84 | S256 undoes U256 if and only if the number is in [-2^255, 2^255) |
| Integers.UnsignedRoundTrip | binary/integer.go:70-84 | U256 undoes S256 if and only if the number is in [0, 2^256) |
| Integers.U256IsMod | binary/integer.go:70-73 | Masking with 2^256 - 1 is reduction modulo 2^256, for negative numbers too |
| Integers.BitwiseByBit | binary/integer.go:70-103 | The recursive and, or and not act bit by bit in two's complement |
| Integers.SignExtend | binary/integer.go:88-103 | Overwrites and returns its argument with the extension from the sign bit computed in 64 bits, and panics if and only if that position is negative as a signed number |

## Left out

- RWTree, the IAVL tree, LevelDB and execution/state.go: they rest on library code; the backend of the store is a sorted map.
- Hashing, curves and signatures: an address stands for its public key, `sign` is any function, and sign bytes are a record.
- Ring.TotalPower, Resultant, Equal and String of the ring and set: nothing proved depends on them.
- Windows and head positions beyond a machine integer: ring indices are unbounded numbers.
- MultiIterators.MultiIterator.constructor: sources are value sequences with a position, so two iterators sharing one underlying source are not modelled.
- Prefixes.PrefixIteration: a nil prefix, whose keys can become nil endpoints, is taken as the empty one.
- KeyFormats.KeyBytes: arguments are byte strings already; formatting by reflection is modelled for 64-bit words and int64 only.
- StateCaches.StateCache.Sync: the output is a value passed in and out, so one shared with other writers is not modelled; a changed entry without account, which panics over a cache, is an error like any other; storage missing in plain state reads as zero.
- StateCaches.StateCache.Flush: the output is a value, as for Sync.
- IterateCachedAccount and IterateCachedStorage: they walk the cached entries in the order of a Go map, which is not fixed. Cache options only set a name.
- SyncOrders.SyncInOrder: for entries that can be written; a changed entry without account stops Sync behind its words.
- SignGuard.AnswerExactly: for a signer that always signs and votes of known kind; other cases are in SignGuard.SuccessMatchesState and SignGuard.PanicsOnlyOnUnknownVotes.
- SignGuard.LastSignedInfo.Sign: SignVote and SignProposal are one method on a message of either kind; heartbeats, which are never recorded, are absent.
- SendContexts.ExecuteSend: logging is absent, and events are known by their address; the payload is always a SendTx.
- Call, name, bond and governance transactions, the EVM, native contracts and the name registry: most of their code depends on parts not modelled.
- Locks, goroutines and command queues: each locked method is one step, and the event server reads its commands from a list.
- PubSub.SubscriptionIndex.RemoveAll: draining a closed channel is not modelled; an inbox holds everything ever sent.
- QueryReader.Matches: comparing a tag's text with an operand is a parameter, with panics, since it rests on reflection and on library conversions.
- QueryReader.Conditions: float, time and date operands are kept as text, and their conversion is accepted or refused by a parameter.
- QueryPrinting.ListingLegal: only for ASCII text; behind other characters tags and strings are cut out of place.
- QueryLanguage.ListingExactly: only for ASCII text, as for QueryPrinting.ListingLegal.
- QueryBuilder.ConjunctionLists: only for ASCII queries that list without panic.
- QueryJoin.JoinLists: what is listed of the second part behind a first part beyond ASCII is not determined.
- QueryRoundTrip.RoundTrip: operands are strings and integers; floats, times and values with a String method print through library code.
- QueryParsers.QueryParser.Query: texts are sequences of Unicode characters, so bytes that are not UTF-8 are absent; positions are not limited to 32 bits; the furthest position kept for error messages is absent.
- QueryBuilder.Builder.AndCondition: one method for the six that differ in the operator; template errors cannot occur in it.
- PermissionRecords.SkipField: the loop that only steps over a varint reads it; positions are unbounded numbers that are checked where 64 bits wrap.
- Integers.SignExtend: the shift by a position of 2^63 or more, which cannot be carried out, is treated as a panic.
- RPC, keys, deployment, configuration, logging, genesis, command line and kernel: input and output plumbing.
