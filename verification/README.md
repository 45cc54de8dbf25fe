# Typed storage, supervision and memory accounting, verified

This project models four parts of the Mysten infrastructure crates and proves what their callers rely on:
the typed RocksDB store (`crates/typed-store`), the component supervisor (`crates/component`), the sampling
counter of the store's metrics, and deep heap measurement (`crates/mysten-util-mem`).
`dafny verify dfyconfig.toml` checks everything.

## How it is organised

| file | what it holds |
|---|---|
| `Wrappers.dfy` | `Option`, `Result`, the errors of a table |
| `KeyEncoding.dfy` | big-endian fixed-width keys, for every key type built from integers, sequences and tuples |
| `Tables.dfy` | schemas, typed views of byte tables, the map operations that views are compared with |
| `FixedIntKeys.dfy` | the key encoding as an instance of the interface the tables are proved against |
| `Rocks.dfy` | column families as byte maps, atomic batches, sorted listings |
| `Cursor.dfy` | `Iter`, `RevIter`, `Keys`, `Values` over one raw cursor |
| `TypedMap.dfy` | `DBMap` and `DBBatch` |
| `BatchChains.dfy` | chains of batch calls over column families of different key and value types |
| `MapDefaults.dfy` | the default methods of the `Map` trait next to the batched overrides |
| `TableDump.dfy` | the generated `dump` and `count_keys` |
| `StoreSpec.dfy` | the `Store` as a sequential map with waiting, without actor or channel |
| `StoreActor.dfy` | the task behind a `Store`: its handlers as methods, and one command as a function on values |
| `StoreSystem.dfy` | any number of clients, the bounded channel and the actor, interleaved; the invariant |
| `StoreTheorems.dfy` | what clients can rely on, over every run |
| `Sampling.dfy` | `SamplingInterval` |
| `Supervision.dfy` | `Supervisor` and the contract of supervised tasks |
| `MallocSize.dfy` | `MallocSizeOf` with its shortcuts, and shared allocations |

The layers meet at stated interfaces. The actor works on a `DBMap`; its handlers are proved to perform
`StoreActor.Step`, and `StoreSystem` interleaves that same `Step` with the clients. `DBMap` is proved for any
schema whose keys round-trip and sort, and `FixedIntKeys.BeFixIntCodecIsLawful` shows that the keys of the real
encoding do. Database calls take their outcome (success or an error) as a parameter, so that every theorem
holds for every pattern of failures; a failed call changes nothing.

`StoreSpec` is written independently of the actor: it has no queues, and it says of a waiting `notify_read`
only which later request settles it. `StoreSystem` proves that the actor's queues and messages are exactly what
`StoreSpec` says, and `StoreTheorems` draws the conclusions.

## Findings

- `sync_write_all` answers the waiters of the keys it has just stored with `Ok(None)`, not with the values
  (`crates/typed-store/src/lib.rs:89-96`), although a single write answers with the value. `StoreSpec.SyncWriteAllMisleadsWaiter` is
  a concrete history, and `StoreSpec.NotifyReadAgreesWithMap` says exactly when an answer agrees with the table.
- `remove` releases its waiters even when the database call failed (`crates/typed-store/src/lib.rs:100-107`); `remove_all` does not.
  A waiter is misled by this only if it was parked because its own lookup failed
  (`StoreSpec.MissedNotifyReadAgreesWithMap`); `StoreSpec.FailedRemoveMisleadsWaiter` is such a history.
- `notify_read` hides a failed lookup: the caller is parked instead of being told (`crates/typed-store/src/lib.rs:132-139`).
  A caller is parked on a key that is in the table exactly if its own lookup failed although the key was there
  (`StoreSpec.ParkedOnPresentKey`, and `StoreTheorems.ObligationInvariant` over runs);
  `StoreTheorems.FailedLookupParksOnPresentKey` is a run that ends so.
- `DBMap`'s `multi_get`, `multi_insert` and `multi_remove` serialize every element before any database call, so
  that a bad element hides the error of an earlier call. `MapDefaults.MultiGetAgreesWithGets`,
  `MapDefaults.BatchInsertRefinesDefault` and `MapDefaults.BatchRemoveRefinesDefault` say exactly when they
  report what the one-at-a-time defaults report; `MapDefaults.BadKeyHidesEarlierError` is an input on which all
  three differ.
- `Iter::reverse` continues from where the iterator stands, while the comment at
  `crates/typed-store/src/rocks/iter.rs:104-106` speaks of elements from the end. The two agree exactly if the
  table is empty or the iterator stands on the last entry (`Cursor.ReverseIsWholeAtEnd`); from a new iterator
  over two entries, `reverse` yields only the first (`Cursor.ReverseFromStartYieldsOne`).
- Two's-complement keys sort by value exactly between keys of one sign
  (`KeyEncoding.SignedOrderAgreesWithinOneSign`, and `KeyEncoding.SignedOrderFails` for a pair across zero).
- The timed sampling bound can fail when the 64-bit counter wraps between the background task's load and its
  store. What decides is whether a store is stale, that is, finds a counter that has wrapped, been sampled and
  not yet passed the threshold again: a call after any store of a run keeps the spacing exactly if no store of
  the run is stale (`Sampling.TimedSpacingIsExact`). Only a wrap between a load and its store can make one stale
  (`Sampling.StaleNeedsWrap`), and `Sampling.WrapBeforeStoreSamplesTwice` is a run from the start that has one.
  In every run whatever, no more samples are taken than the counter has been zeroed
  (`Sampling.SamplesFollowZeroings`). With zero duration the count stays exact for ever if and only if
  `after_num_ops + 1` divides 2^64 (`Sampling.ScheduleSurvivesWrap`).
- The supervised-task contract is needed: an error that is waiting in the channel reaches the handler under
  every choice of `select` exactly as long as its task has not returned (`Supervision.ErrorIsSafeUntilReturn`,
  for errors that differ from the generic message).

## Model

| member | source | states |
|---|---|---|
| `StoreTheorems.RepliesAreSequential` | crates/typed-store/src/lib.rs:170-312 | linearizability over every run: a reply that has come back is the sequential map's reply at the call's position in channel order, and the call took effect after it was made and before it came back; a notify_read comes back with its verdict after the request that settles it |
| `StoreTheorems.RepliesShowTheTable` | crates/typed-store/src/lib.rs:71-155 | a successful read shows, key by key and in order, what the table held at its place in channel order; a failed call reports its error; a successful write of any kind reports success |
| `StoreTheorems.StepsStoreWhatIsAsked` | crates/typed-store/src/lib.rs:72-121 | what a successful command stores, key by key: a write its value, a write-all for each of its keys the value of the last pair with that key, removals nothing; every other key keeps what it held |
| `StoreTheorems.RealTimeOrder` | crates/typed-store/src/lib.rs:66-71 | channel order extends real-time order: a call that ended before another was made takes effect before it |
| `StoreTheorems.ProgramOrder` | crates/typed-store/src/lib.rs:170-312 | one client's calls take effect in exactly the order in which it makes them |
| `StoreTheorems.ReadSeesFinishedWrite` | crates/typed-store/src/lib.rs:170-312 | a read, raw read, read_all or iter made after a write of a key has ended, even an async_write, shows what that write or a later request on the key left there |
| `StoreTheorems.RepliersAreConserved` | crates/typed-store/src/lib.rs:66-140 | in every reachable state each replier is in exactly one of channel, one place of one queue, or answered, and is answered at most once; only notify_reads are parked |
| `StoreTheorems.BlockedCallersAreServed` | crates/typed-store/src/lib.rs:283-295 | with an empty channel, a caller without an answer is a notify_read whose key no request has released since it was handled |
| `StoreTheorems.ChannelDrains` | crates/typed-store/src/lib.rs:70-157 | from every reachable state the actor can handle every command in the channel, whatever the database does; then every blocked caller but a notify_read can receive its answer and every suspended sender finds room |
| `StoreTheorems.ChannelHoldsAHundred` | crates/typed-store/src/lib.rs:68-68 | the channel never holds more than 100 commands and takes one exactly while it holds fewer |
| `StoreTheorems.NoReplierIsDropped` | crates/typed-store/src/lib.rs:55-71 | the loop ends only when no client holds a Store, so never during a call; when it ends no replier is parked, and every call that waits for a reply has been answered and has come back |
| `StoreSystem.IdleClientsLeaveNoWaiter` | crates/typed-store/src/lib.rs:66-71 | whenever no client has a call in progress, the obligations map is empty |
| `StoreTheorems.ObligationInvariant` | crates/typed-store/src/lib.rs:66-140 | while a waiter is parked on a key, no write, write-all or remove-all of the key has succeeded since and no remove of it was handled; the key is in the table if and only if the waiter's own lookup failed although it was there; no queue in the map is empty and each is in parking order |
| `StoreTheorems.FailedLookupParksOnPresentKey` | crates/typed-store/src/lib.rs:130-140 | a concrete run, for any table and key in it, that leaves a notify_read of the key parked with nothing else under way |
| `StoreTheorems.WriteReleasesInOrder` | crates/typed-store/src/lib.rs:72-84 | a successful write answers the key's waiters in parking order with the value now in the table, then the writer, and leaves every other queue alone |
| `StoreTheorems.ManyKeysReleaseOnce` | crates/typed-store/src/lib.rs:85-121 | a successful write-all or remove-all, duplicate keys included, answers each waiter of each listed key once with None, each key's waiters in parking order, then its caller; no listed key keeps a waiter and no other queue changes |
| `StoreTheorems.RemoveReleasesAlways` | crates/typed-store/src/lib.rs:100-107 | a remove answers the waiters of its key with None in parking order whether or not the database call succeeds, and touches no other queue |
| `StoreTheorems.FailuresReleaseOnlyOnRemove` | crates/typed-store/src/lib.rs:72-140 | in every reachable state, a step whose database call fails leaves the table alone and answers a parked waiter if and only if it is a remove of the waiter's key, with None; only a notify_read joins a queue |
| `StoreSystem.ReachableStatesAreConsistent` | crates/typed-store/src/lib.rs:66-161 | every state of every interleaving of clients, channel of capacity 100 and actor agrees with the sequential specification |
| `StoreSystem.StepMatchesSpec` | crates/typed-store/src/lib.rs:71-155 | one handled command has the specified effect on the table, answers the waiters of the released keys and then its own caller, and parks or releases as specified |
| `StoreSystem.ActorStep` | crates/typed-store/src/lib.rs:71-155 | handling a command keeps the actor's table and queues equal to those the history prescribes |
| `StoreSystem.OutboxStep` | crates/typed-store/src/lib.rs:71-155 | handling a command keeps the messages sent equal to the verdicts on the settled calls, one each |
| `StoreSystem.DrainedNoRepeats` | crates/typed-store/src/lib.rs:90-97 | draining the queues of a list of keys with duplicates takes each waiter once |
| `StoreSystem.DrainedInOrder` | crates/typed-store/src/lib.rs:90-97 | draining keeps the parking order of each key's waiters |
| `StoreSpec.WaitersAreUnsettled` | crates/typed-store/src/lib.rs:130-140 | the queue of a key holds exactly its notify_reads that no request has settled, each once, oldest first |
| `StoreSpec.ParkedKeyIsUntouched` | crates/typed-store/src/lib.rs:130-140 | while a waiter is unsettled its key keeps what it held when the waiter was parked, whatever failed meanwhile |
| `StoreSpec.ParkedOnPresentKey` | crates/typed-store/src/lib.rs:130-140 | an unsettled waiter's key is in the table if and only if the waiter's own lookup failed and the key was there |
| `StoreSpec.VerdictExtends` | crates/typed-store/src/lib.rs:66-140 | an answer, once determined, is not changed by later requests |
| `StoreSpec.NotifyReadAgreesWithMap` | crates/typed-store/src/lib.rs:72-140 | a notify_read is told what the table holds right after the request that settles it if and only if that request is neither a write-all nor a failed remove of a present key |
| `StoreSpec.MissedNotifyReadAgreesWithMap` | crates/typed-store/src/lib.rs:85-99 | when the waiter's own lookup succeeded, only write-all misleads it |
| `StoreSpec.SyncWriteAllMisleadsWaiter` | crates/typed-store/src/lib.rs:85-99 | a concrete waiter that is told None although its key has just been stored |
| `StoreSpec.FailedRemoveMisleadsWaiter` | crates/typed-store/src/lib.rs:100-107 | a concrete waiter that a failed remove answers with None although its key has been in the table all along |
| `StoreSpec.LastActorDecides` | crates/typed-store/src/lib.rs:72-121 | what the table holds for a key is what the last successful request on the key left there |
| `StoreSpec.EffectOnKey` | crates/typed-store/src/lib.rs:72-121 | a request leaves every key it does not name alone; writes leave their keys present and removals absent |
| `StoreActor.Actor.Handle` | crates/typed-store/src/lib.rs:71-155 | each command of the loop takes exactly the specified step, including its outcome: its first serialization error, or else what the database reports, for read_all the first of its reads that fails |
| `StoreActor.Actor.HandleWrite` | crates/typed-store/src/lib.rs:72-84 | inserts; on success only, answers the key's waiters with the value; then answers the caller if there is one |
| `StoreActor.Actor.HandleWriteAll` | crates/typed-store/src/lib.rs:85-99 | inserts all or nothing; on success only, answers the waiters of every key with None; then answers the caller |
| `StoreActor.Actor.HandleDelete` | crates/typed-store/src/lib.rs:100-107 | removes, and answers the key's waiters with None whatever the database reported |
| `StoreActor.Actor.HandleDeleteAll` | crates/typed-store/src/lib.rs:108-121 | removes all or nothing; on success only, answers the waiters of every key with None; then answers the caller |
| `StoreActor.Actor.HandleNotifyRead` | crates/typed-store/src/lib.rs:130-140 | answers at once when the lookup finds the key; parks at the back of the key's queue when it does not, and when the lookup fails |
| `StoreActor.Actor.HandleIter` | crates/typed-store/src/lib.rs:141-150 | answers with exactly the entries that pass the filter, all of them without one |
| `StoreActor.Actor.ReleaseKeys` | crates/typed-store/src/lib.rs:90-97 | the drain loops remove the queues of all listed keys and answer their waiters front to back |
| `StoreActor.Actor.Run` | crates/typed-store/src/lib.rs:70-158 | the receive loop performs one step for each command in channel order |
| `StoreActor.CollectFiltered` | crates/typed-store/src/lib.rs:141-150 | collecting the filtered iterator gives the filtered map |
| `KeyEncoding.OrderEmbedding` | crates/typed-store/src/rocks/mod.rs:1049-1060 | for every key type, byte order of encodings is key order and no encoding is a proper prefix of another |
| `KeyEncoding.ByteOrderIsKeyOrder` | crates/typed-store/src/rocks/mod.rs:1049-1060 | byte order is numeric on unsigned keys, lexicographic on tuples, and length-first then lexicographic on sequences and strings |
| `KeyEncoding.IntegersTakeTheirWidth` | crates/typed-store/src/rocks/mod.rs:1049-1060 | an encoded integer takes exactly its width |
| `KeyEncoding.SequencesStartWithLength` | crates/typed-store/src/rocks/mod.rs:1049-1060 | an encoded sequence or string is its length in eight big-endian bytes followed by its elements and nothing else |
| `KeyEncoding.ItemsAreConcatenated` | crates/typed-store/src/rocks/mod.rs:1049-1060 | the elements of a sequence are encoded one after the other |
| `KeyEncoding.PairsAreConcatenated` | crates/typed-store/src/rocks/mod.rs:1049-1060 | an encoded pair is the encodings of its two parts and nothing else |
| `KeyEncoding.UnsignedBytesSortByValue` | crates/typed-store/src/rocks/mod.rs:1049-1060 | unsigned keys sort by value |
| `KeyEncoding.PairBytesSortByFirst` | crates/typed-store/src/rocks/mod.rs:1049-1060 | pairs sort by their first part, and by the second where the first are equal |
| `KeyEncoding.SequenceBytesSortByLength` | crates/typed-store/src/rocks/mod.rs:1049-1060 | sequences and strings sort by length first, then by their first difference |
| `KeyEncoding.SignedOrderAgreesWithinOneSign` | crates/typed-store/src/rocks/mod.rs:1049-1060 | two different signed keys sort by value if and only if they have the same sign |
| `KeyEncoding.SignedOrderFails` | crates/typed-store/src/rocks/mod.rs:1049-1060 | an i32 key of -1 sorts after one of 0 |
| `KeyEncoding.ParseInvertsEncode` | crates/typed-store/src/rocks/iter.rs:48-59 | decoding an encoded key followed by anything gives back the key and leaves what follows |
| `KeyEncoding.RoundTrip` | crates/typed-store/src/rocks/iter.rs:48-59 | decoding with the same options inverts encoding, for every key type |
| `KeyEncoding.DecodesExactlyEncodings` | crates/typed-store/src/rocks/iter.rs:48-59 | bytes decode to a key if and only if they are exactly its encoding, with nothing after it |
| `FixedIntKeys.BeFixIntCodecIsLawful` | crates/typed-store/src/rocks/mod.rs:1049-1060 | the key serialization meets both assumptions of the typed tables: it round-trips and it sorts |
| `FixedIntKeys.DeleteNumericRange` | crates/typed-store/src/rocks/mod.rs:484-557 | over unsigned keys a range delete that is written removes exactly the numbers from <= n < to from the typed map, changes no other column family, and changes nothing when the write fails |
| `FixedIntKeys.NumericRangeDelete` | crates/typed-store/src/rocks/mod.rs:541-557 | the encoded range, applied to a table, removes exactly the numbers from <= n < to from its typed view |
| `Rocks.LastOperationWins` | crates/typed-store/src/rocks/mod.rs:484-516 | the last operation of a batch that covers a key decides what the key holds |
| `Rocks.UncoveredKeyIsKept` | crates/typed-store/src/rocks/mod.rs:484-516 | a key that no operation covers keeps its value |
| `Rocks.ApplyOpsToOneFamily` | crates/typed-store/src/rocks/mod.rs:541-557 | operations on one column family change no other |
| `Rocks.ListingIsSortedAndExact` | crates/typed-store/src/rocks/mod.rs:731-757 | the snapshot a cursor moves over holds each entry once, in byte order |
| `TypedMap.DBMap.Get` | crates/typed-store/src/rocks/mod.rs:601-629 | returns what the typed map holds for the key, or the serialization or database error |
| `TypedMap.DBMap.GetRawBytes` | crates/typed-store/src/rocks/mod.rs:632-660 | returns the serialized form of what the typed map holds for the key |
| `TypedMap.DBMap.Insert` | crates/typed-store/src/rocks/mod.rs:663-689 | the typed map gains the pair exactly on success; no other column family changes |
| `TypedMap.DBMap.Remove` | crates/typed-store/src/rocks/mod.rs:692-717 | the typed map loses the key exactly on success; no other column family changes |
| `TypedMap.DBMap.MultiGet` | crates/typed-store/src/rocks/mod.rs:775-825 | the values in order, or the first key error, or else the first read error |
| `TypedMap.DBMap.MultiInsert` | crates/typed-store/src/rocks/mod.rs:829-838 | every pair is stored, later ones winning, or nothing changes |
| `TypedMap.DBMap.MultiRemove` | crates/typed-store/src/rocks/mod.rs:842-847 | every key is gone, or nothing changes |
| `TypedMap.DBMap.Iterate` | crates/typed-store/src/rocks/mod.rs:731-757 | a new iterator has every entry of the typed map to yield once, in strictly increasing key order |
| `TypedMap.DBBatch.Write` | crates/typed-store/src/rocks/mod.rs:482-516 | consumes the batch and applies its operations in order, atomically |
| `TypedMap.DBBatch.InsertBatch` | crates/typed-store/src/rocks/mod.rs:559-578 | appends one put for each pair, or fails on a foreign map or the first serialization error |
| `TypedMap.DBBatch.DeleteBatch` | crates/typed-store/src/rocks/mod.rs:520-539 | appends one delete for each key, or fails on a foreign map or the first serialization error |
| `TypedMap.DBBatch.DeleteRangeOf` | crates/typed-store/src/rocks/mod.rs:541-557 | appends the encoded half-open range, or fails on a foreign map or a serialization error |
| `TypedMap.PutOpsMeanPutAll` | crates/typed-store/src/rocks/mod.rs:559-578 | applying the byte operations of an insert batch means putting all pairs into the typed map |
| `TypedMap.DeleteOpsMeanDropAll` | crates/typed-store/src/rocks/mod.rs:520-539 | applying the byte operations of a delete batch means dropping all keys from the typed map |
| `TypedMap.RangeOpsMeanDropRange` | crates/typed-store/src/rocks/mod.rs:541-557 | applying a byte range delete means dropping exactly the keys of the typed range, in key order |
| `TypedMap.ListingRepresentsView` | crates/typed-store/src/rocks/mod.rs:731-757 | the decoded listing is the typed map: each entry once, strictly increasing by key, none missing |
| `BatchChains.RunChain` | crates/typed-store/src/rocks/mod.rs:465-579 | a chain of calls over families of two pairs of types, ended by write: any failing call or a failed write changes nothing and reports the first error |
| `BatchChains.CallChangesOwnMap` | crates/typed-store/src/rocks/mod.rs:519-579 | a call of a chain means its map operation on its own column family and leaves every other family alone, whatever their types |
| `BatchChains.ChainMeansEffect` | crates/typed-store/src/rocks/mod.rs:465-579 | for each pair of key and value types in a chain over any number of them, writing the chain gives the typed maps of these types what the calls over these types give one by one, in order |
| `BatchChains.MixedChainMeansEffects` | crates/typed-store/src/rocks/mod.rs:465-579 | a written chain over families of two pairs of types, in any order, gives each side what its own calls give one by one, and changes no other family |
| `Cursor.Iter.Next` | crates/typed-store/src/rocks/iter.rs:46-78 | yields the pending entries one at a time, in either direction, and None exactly when none is left |
| `Cursor.Iter.SkipTo` | crates/typed-store/src/rocks/iter.rs:85-88 | leaves exactly the entries with a key at or after the given one |
| `Cursor.Iter.SkipPriorTo` | crates/typed-store/src/rocks/iter.rs:93-96 | starts at the greatest key at or before the given one and continues from there, or yields nothing if there is none |
| `Cursor.Iter.SkipToLast` | crates/typed-store/src/rocks/iter.rs:99-102 | leaves exactly the last entry |
| `Cursor.Iter.Reverse` | crates/typed-store/src/rocks/iter.rs:107-110 | the entries from the current one down to the first |
| `Cursor.ReverseIsWholeAtEnd` | crates/typed-store/src/rocks/iter.rs:104-110 | a reversed iterator yields the whole table from the end if and only if the table is empty or the iterator stands on the last entry |
| `Cursor.ReverseFromStartYieldsOne` | crates/typed-store/src/rocks/iter.rs:104-110 | reversing a new iterator over two entries yields the first one only |
| `Cursor.RevIter.Next` | crates/typed-store/src/rocks/iter.rs:127-134 | yields the pending entries downwards |
| `Cursor.Iter.Collect` | crates/typed-store/src/rocks/iter.rs:46-78 | iterating until None yields everything that was pending, in order |
| `Cursor.ScanBackFromLast` | crates/typed-store/src/rocks/iter.rs:99-134 | skip_to_last().reverse() is the exact reverse of forward iteration |
| `Cursor.ScanBackFromPrior` | crates/typed-store/src/rocks/iter.rs:93-134 | skip_prior_to(k).reverse() yields every entry with a key at or before k, descending |
| `Cursor.ScanBackFrom` | crates/typed-store/src/rocks/iter.rs:85-134 | skip_to(k).reverse() yields the first entry at or after k and everything before it, descending, and nothing when k is beyond the last key |
| `Cursor.SeekSelects` | crates/typed-store/src/rocks/iter.rs:85-88 | a byte seek to an encoded key lands exactly on the entries with at least that key |
| `Cursor.SeekForPrevSelects` | crates/typed-store/src/rocks/iter.rs:93-96 | a backward byte seek to an encoded key lands on the last entry with at most that key |
| `Cursor.Keys.Next` | crates/typed-store/src/rocks/keys.rs:28-40 | yields the keys of what an Iter at the same position yields |
| `Cursor.Keys.SkipTo` | crates/typed-store/src/rocks/keys.rs:47-50 | leaves the keys of exactly the entries at or after the given key |
| `Cursor.Keys.SkipPriorTo` | crates/typed-store/src/rocks/keys.rs:55-58 | starts at the greatest key at or before the given one, or yields nothing |
| `Cursor.Values.Next` | crates/typed-store/src/rocks/values.rs:27-40 | yields the values of what an Iter at the same position yields |
| `MapDefaults.GetOrInsertUnsafe` | crates/typed-store/src/traits.rs:28-40 | returns what the map now holds for the key, storing the default only when nothing was there; its expect cannot panic; the default stays stored when only the last read fails |
| `MapDefaults.MultiInsert` | crates/typed-store/src/traits.rs:71-83 | the default applies exactly the pairs before the first failing one and reports that one's error |
| `MapDefaults.MultiRemove` | crates/typed-store/src/traits.rs:85-92 | the default removes exactly the keys before the first failing one and reports that one's error |
| `MapDefaults.MultiGet` | crates/typed-store/src/traits.rs:63-69 | the default is one get after the other up to the first error |
| `MapDefaults.BatchInsertRefinesDefault` | crates/typed-store/src/rocks/mod.rs:829-838 | when both succeed, batch and default leave the same table, duplicates included; a failing default leaves the pairs before the failing one, a failing batch nothing; an exact condition for both to report the same result |
| `MapDefaults.BatchRemoveRefinesDefault` | crates/typed-store/src/rocks/mod.rs:842-847 | the same for removal |
| `MapDefaults.BadKeyHidesEarlierError` | crates/typed-store/src/rocks/mod.rs:775-847 | a concrete input on which the batched multi_get, multi_insert and multi_remove report another error than the defaults |
| `MapDefaults.MultiGetAgreesWithGets` | crates/typed-store/src/rocks/mod.rs:775-825 | multi_get equals the mapped gets unless an unserializable key hides a different error of an earlier read; both succeed on the same inputs |
| `Tables.PutAllLastWins` | crates/typed-store/src/rocks/mod.rs:829-838 | of several pairs with one key the last is stored |
| `TableDump.Dump` | crates/typed-store-derive/src/lib.rs:534-552 | renders exactly the requested page of the table's key-ordered listing: the debug text of each key is mapped to the debug text of its value, the last one where texts coincide, and no other text is a key |
| `TableDump.RenderedShows` | crates/typed-store-derive/src/lib.rs:545-546 | what collecting the debug texts of any entries into an ordered map holds |
| `TableDump.CountKeys` | crates/typed-store-derive/src/lib.rs:554-567 | counts the entries of the typed map |
| `TableDump.SelectPage` | crates/typed-store-derive/src/lib.rs:542-546 | skip and take select the page at its offset in what the iterator yields |
| `TableDump.PagesAreWhole` | crates/typed-store-derive/src/lib.rs:536-547 | pages 0, 1, 2, ... put together are the whole listing as soon as they reach its end |
| `TableDump.EachEntryOnOnePage` | crates/typed-store-derive/src/lib.rs:536-547 | every entry is on exactly one page, and which one |
| `TableDump.ShownIsCounted` | crates/typed-store-derive/src/lib.rs:536-567 | when debug texts tell keys apart, the sizes of the dumped pages add up to what count_keys returns |
| `Sampling.TimedSpacingIsExact` | crates/typed-store/src/metrics.rs:39-65 | in timed mode, for every interleaving, a call right after each store keeps after_num_ops unsampled calls before every sampled one if and only if no store of the run is stale |
| `Sampling.TimedSamplingIsBounded` | crates/typed-store/src/metrics.rs:39-65 | without a stale store, after_num_ops unsampled calls precede each sampled one and m calls give at most m / (after_num_ops + 1) samples |
| `Sampling.TimedSamplingGoesOn` | crates/typed-store/src/metrics.rs:43-48 | at the end of every run with no store due, the background task can have the next call sampled if and only if the counter is above after_num_ops; otherwise its load does nothing |
| `Sampling.BoundIsMet` | crates/typed-store/src/metrics.rs:39-65 | the bound is met: after the start or a sampled call, after_num_ops further calls and a reset, the next call is sampled |
| `Sampling.StaleNeedsWrap` | crates/typed-store/src/metrics.rs:43-48 | a run in which the counter does not wrap between a load and its store has no stale store |
| `Sampling.SamplesFollowZeroings` | crates/typed-store/src/metrics.rs:39-65 | in every run, samples taken or due plus stores that found zero are exactly the zeroings of the counter, so that at most one sample follows each |
| `Sampling.WrapBeforeStoreSamplesTwice` | crates/typed-store/src/metrics.rs:45-46 | a run from the start with a stale store: the counter wraps between the load and the store, and two of three calls in a row are sampled |
| `Sampling.UntimedSamplingIsExact` | crates/typed-store/src/metrics.rs:58-61 | with zero duration m calls are sampled exactly m / (after_num_ops + 1) times, and any after_num_ops + 1 consecutive ones exactly once |
| `Sampling.ScheduleSurvivesWrap` | crates/typed-store/src/metrics.rs:58-61 | with zero duration every number m of calls is sampled exactly m / (after_num_ops + 1) times, wrap-arounds included, if and only if after_num_ops + 1 divides 2^64 |
| `Sampling.SamplingInterval.Sample` | crates/typed-store/src/metrics.rs:58-64 | one atomic increment, with wrap-around, whose previous value decides the answer in each mode |
| `Sampling.SamplingInterval.BackgroundLoad` | crates/typed-store/src/metrics.rs:43-46 | the load decides whether a store follows; calls may come in between |
| `Sampling.SamplingInterval.BackgroundStore` | crates/typed-store/src/metrics.rs:46-46 | zeroes the counter and discards the calls counted since the load |
| `Supervision.GenerationsFollowOneAnother` | crates/component/src/lib.rs:94-139 | for any component and in every reachable state, handle_irrecoverable was called at most once per generation, right before the next one was started, and that right before this one was cancelled; no later generation is started and none is cancelled without that call before it |
| `Supervision.LatestIsUncancelled` | crates/component/src/lib.rs:94-139 | exactly the latest generation is uncancelled, and the one before it as well from the start of the latest to the drop of the old cancellation sender; after the handler's error none is |
| `Supervision.OnlyLatestIsHeard` | crates/component/src/lib.rs:104-139 | outside the takeover only the latest generation can send, and none after the handler's error; a channel has room for ten messages; while the supervisor waits, it takes the first message that the latest generation has sent |
| `Supervision.AccountingHolds` | crates/component/src/lib.rs:76-139 | in every reachable state the handles, cancellations and events are those of the current generation's stage |
| `Supervision.NoErrorIsLost` | crates/component/examples/stream_example.rs:84-110 | when tasks keep the contract, each generation's own message reaches the handler whatever select picks, and a generation that ends silently is reported once with "An unexpected shutdown was observed in a component." |
| `Supervision.ErrorIsSafeUntilReturn` | crates/component/src/lib.rs:104-117 | for any task, a waiting error reaches the handler under every choice of select if and only if the task has not returned |
| `Supervision.EarlyReturnLosesError` | crates/component/examples/stream_example.rs:98-110 | a task that returns right after sending can have its error replaced by the generic message |
| `Supervision.Supervisor.Turn` | crates/component/src/lib.rs:104-139 | one turn takes the actions of select, handler and restart in this order, or stops with the handler's error, with any steps of any tasks in between; the state stays one of the runs that the theorems are about |
| `Supervision.Supervisor.Restart` | crates/component/src/lib.rs:122-139 | start, then receiver, cancellation sender and join handle, with tasks stepping in between; one more generation |
| `Supervision.Supervisor.Select` | crates/component/src/lib.rs:104-116 | takes the oldest message or notices the join, either one when both are ready |
| `Supervision.Supervisor.HandleIrrecoverable` | crates/component/src/lib.rs:117-117 | an error of the handler drops every handle, which cancels the running generation |
| `Supervision.Supervisor.AssignNewCancellation` | crates/component/src/lib.rs:134-136 | assigning the new cancellation sender drops the old one, which cancels the old generation |
| `MallocSize.FastIsFull` | crates/mysten-util-mem/src/malloc_size.rs:226-504 | for every type, nesting and value, measuring with the constant-size shortcuts equals measuring every element |
| `MallocSize.ConstantIsExact` | crates/mysten-util-mem/src/malloc_size.rs:242-298 | constant_size() == Some(c) means that every value of the type measures c, whatever has been seen |
| `MallocSize.ConstantIffUniform` | crates/mysten-util-mem/src/malloc_size.rs:242-298 | for types without collections, boxes or shared pointers, constant_size is Some if and only if all values of the type have one size, which it then is; for a Result this means equal constants, for an Option a constant of zero |
| `MallocSize.EachIsExact` | crates/mysten-util-mem/src/malloc_size.rs:313-364 | len * constant is what folding over the elements of a slice, vector or set computes |
| `MallocSize.EntriesAreExact` | crates/mysten-util-mem/src/malloc_size.rs:428-475 | len * (k + v) is what folding over the entries of a map computes |
| `MallocSize.HeldIsAllocated` | crates/mysten-util-mem/src/malloc_size.rs:226-504 | what a measurement of a value adds up is all that the value's structure allocates, at every depth |
| `MallocSize.MeasuredIsAccounted` | crates/mysten-util-mem/src/malloc_size.rs:536-545 | a measurement is every allocation in the value's structure, whose definition knows no types and no measuring, plus every shared allocation it is the first to see |
| `MallocSize.EverythingIsSeen` | crates/mysten-util-mem/src/malloc_size.rs:157-165 | after a measurement every shared allocation the value leads to has been seen, also through pointers that were skipped |
| `MallocSize.SharedIsCountedOnce` | crates/mysten-util-mem/src/malloc_size.rs:536-545 | each shared allocation that the value's structure leads to is counted exactly once however often it is reached, and not at all when the value is measured again |
| `MallocSize.Measure` | crates/mysten-util-mem/src/malloc_size.rs:226-545 | the measuring code, with nothing seen before, returns every allocation of the value plus every shared one it leads to, once each |
| `MallocSize.SizeOf` | crates/mysten-util-mem/src/malloc_size.rs:226-545 | the measuring code returns the specified size and remembers the specified pointers |
| `MallocSize.SizeOfAll` | crates/mysten-util-mem/src/malloc_size.rs:319-319 | folding with an accumulator over the elements, in order |

## Left out

- The actor is the only writer of its column family; other writers to the same RocksDB handle are not modelled.
- RocksDB itself (`Rocks.RocksDB` is the assumed environment, and so is the closure behind `MallocSize.MallocSizeOfOps.HaveSeenPtr`): options, column-family creation, compaction, snapshots against concurrent writers of other families, secondary catch-up (a success or failure parameter), and iterator errors. A batch is atomic, as RocksDB documents.
- A failed database call changes nothing; partial writes by a failing disk are not modelled.
- `delete_range` with from > to is an empty range, as the comparison says; what RocksDB reports for such a batch is not part of this model.
- Entries that do not decode: tables hold only entries that were written through their own schema.
- bincode's code is not in the repository. Keys are unsigned and signed integers, sequences, strings as byte sequences, and tuples and structs of those; `Option`, enum, bool and char keys are not in the model's key types. Values use an abstract codec that round-trips.
- `clear`, `contains_key`, `is_empty`, `open_cf`, `list_tables`, performance contexts and Prometheus metrics.
- Panics of the actor, shutdown of the runtime before the loop has ended, and clients that drop their future before the reply arrives.
- Fairness: `StoreTheorems.ChannelDrains` says that the actor can always go on and answer, not that the scheduler lets it.
- `StoreActor.Actor.Run` takes the commands that arrive as a finite list; waiting on the channel and the end of the loop are steps of `StoreSystem`.
- `BatchChains.RunChain` takes calls over two pairs of types, because a Dafny sequence cannot hold calls of unboundedly many types; `BatchChains.ChainMeansEffect` covers any number. The calls of `DBBatch` themselves are generic, as in the source.
- `StoreSystem.Next` lets the environment choose how the database work of a command ends; which of these outcomes a command can have is `StoreActor.CallOutcome`.
- Oneshot channels are modelled by the list of messages sent; the value a message carries is fixed when it is sent.
- `SamplingInterval`'s sleeping and its choice of memory orderings: the background task may load at any time, and accesses to the one counter are totally ordered.
- `Sampling.TimedSamplingIsBounded`: runs with a stale store are excluded; on these the spacing fails, as `Sampling.TimedSpacingIsExact` says. With zero duration `after_num_ops` is below the largest 64-bit value, because the source adds one to it.
- `TableDump.SelectPage`: the product of page number and page size is unbounded; a `usize` overflow is not modelled. Unknown table names, which report an error, are left out.
- A supervised task is any source of messages and one return; its panics are returns. Messages are strings instead of error reports.
- Allocator calls and capacity estimates: shallow sizes are given numbers and sums are unbounded.
- Recursive Rust types, mutexes, read-write locks, cells that are filled once, and unconditional measurement of an `Arc` on its own.
- rccheck, mysten-network, procedural macros other than the two generated methods, telemetry.
