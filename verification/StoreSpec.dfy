// What a Store promises, without actor, channel or waiter queues: every request acts on one
// sequential map, and a notify_read is settled by the request that finds or releases its key.
module StoreSpec {
  import opened Wrappers
  import opened KeyEncoding
  import opened Tables

  // The calls of the public interface.
  datatype Request<!K, !V> =
    | AsyncWrite(key: K, value: V)
    | SyncWrite(key: K, value: V)
    | SyncWriteAll(keyValues: seq<(K, V)>)
    | Remove(key: K)
    | RemoveAll(keys: seq<K>)
    | ReadRawBytes(key: K)
    | Read(key: K)
    | ReadAll(keys: seq<K>)
    | NotifyRead(key: K)
    | Iterate(filter: Option<((K, V)) -> bool>)
  {
    // async_write and remove return without waiting for a reply.
    predicate WantsReply() {
      !AsyncWrite? && !Remove?
    }
  }

  datatype Reply<K, V> =
    | Done(done: StoreResult<()>)
    | Found(found: StoreResult<Option<V>>)
    | FoundRaw(raw: StoreResult<Option<Bytes>>)
    | FoundAll(all: StoreResult<seq<Option<V>>>)
    | Listing(entries: map<K, V>)

  // One request in channel order and the outcome of its database call.
  datatype Entry<!K, !V> = Entry(request: Request<K, V>, outcome: Outcome)

  // ----- The sequential map -----

  function Effect<K, V>(table: map<K, V>, e: Entry<K, V>): map<K, V> {
    if e.outcome.Failure? then table else
      match e.request
      case AsyncWrite(k, v) => table[k := v]
      case SyncWrite(k, v) => table[k := v]
      case SyncWriteAll(kvs) => PutAll(table, kvs)
      case Remove(k) => table - {k}
      case RemoveAll(ks) => DropAll(table, ks)
      case _ => table
  }

  function Filtered<K, V>(table: map<K, V>, filter: Option<((K, V)) -> bool>): map<K, V> {
    map k | k in table && (filter.None? || filter.value((k, table[k]))) :: table[k]
  }

  function DoneWith<K, V>(outcome: Outcome): Reply<K, V> {
    match outcome
    case Success => Done(Ok(()))
    case Failure(e) => Done(Err(e))
  }

  // The reply of the sequential map to every request that is answered when it is processed.
  function SequentialReply<K, V(!new)>(codec: ValueCodec<V>, table: map<K, V>, e: Entry<K, V>): Reply<K, V>
    requires e.request.WantsReply() && !e.request.NotifyRead?
  {
    match e.request
    case Read(k) =>
      Found(if e.outcome.Success? then Ok(Lookup(table, k)) else Err(e.outcome.error))
    case ReadRawBytes(k) =>
      FoundRaw(if e.outcome.Success?
               then Ok(if k in table then Some(codec.Raw(table[k])) else None)
               else Err(e.outcome.error))
    case ReadAll(ks) =>
      FoundAll(if e.outcome.Success?
               then Ok(LookupAll(table, ks))
               else Err(e.outcome.error))
    case Iterate(p) => Listing(Filtered(table, p))
    case _ => DoneWith(e.outcome)
  }

  // The map after the first requests of a history, from the map the store was opened with.
  function TableAfter<K, V>(initial: map<K, V>, h: seq<Entry<K, V>>): map<K, V> {
    if h == [] then initial else Effect(TableAfter(initial, h[..|h| - 1]), h[|h| - 1])
  }

  // ----- Waiting -----

  // The keys whose waiters a request releases, in the order it releases them. Remove releases
  // whatever the database call returned.
  function ReleaseKeys<K, V>(e: Entry<K, V>): seq<K> {
    match e.request
    case AsyncWrite(k, _) => if e.outcome.Success? then [k] else []
    case SyncWrite(k, _) => if e.outcome.Success? then [k] else []
    case SyncWriteAll(kvs) => if e.outcome.Success? then KeysOf(kvs) else []
    case Remove(k) => [k]
    case RemoveAll(ks) => if e.outcome.Success? then ks else []
    case _ => []
  }

  // What released waiters are told: the value of a single write, and nothing for the rest.
  function ReleaseValue<K, V>(e: Entry<K, V>): Option<V> {
    match e.request
    case AsyncWrite(_, v) => Some(v)
    case SyncWrite(_, v) => Some(v)
    case _ => None
  }

  // A notify_read whose own lookup finds its key is answered at once; any other one waits.
  predicate Hit<K, V>(table: map<K, V>, e: Entry<K, V>) {
    e.request.NotifyRead? && e.outcome.Success? && e.request.key in table
  }

  predicate Misses<K, V>(table: map<K, V>, e: Entry<K, V>, k: K) {
    e.request.NotifyRead? && e.request.key == k && !Hit(table, e)
  }

  // The first request at or after i that releases k.
  function FirstRelease<K(==), V>(h: seq<Entry<K, V>>, k: K, i: nat): (r: Option<nat>)
    ensures r.None? ==> forall j :: i <= j < |h| ==> k !in ReleaseKeys(h[j])
    ensures r.Some? ==> i <= r.value < |h| && k in ReleaseKeys(h[r.value])
    ensures r.Some? ==> forall j :: i <= j < r.value ==> k !in ReleaseKeys(h[j])
    decreases |h| - i
  {
    if i >= |h| then None
    else if k in ReleaseKeys(h[i]) then Some(i)
    else FirstRelease(h, k, i + 1)
  }

  // The request that answers request t, once the history has reached it.
  function Settler<K, V>(initial: map<K, V>, h: seq<Entry<K, V>>, t: nat): (r: Option<nat>)
    ensures r.Some? ==> t <= r.value < |h|
  {
    if t >= |h| || !h[t].request.WantsReply() then None
    else if !h[t].request.NotifyRead? || Hit(TableAfter(initial, h[..t]), h[t]) then Some(t)
    else FirstRelease(h, h[t].request.key, t + 1)
  }

  // The answer to request t, a function of the history alone.
  function Verdict<K, V(!new)>(
      codec: ValueCodec<V>, initial: map<K, V>, h: seq<Entry<K, V>>, t: nat): Option<Reply<K, V>>
  {
    match Settler(initial, h, t)
    case None => None
    case Some(i) =>
      if !h[t].request.NotifyRead? then Some(SequentialReply(codec, TableAfter(initial, h[..t]), h[t]))
      else if i == t then Some(Found(Ok(Lookup(TableAfter(initial, h[..t]), h[t].request.key))))
      else Some(Found(Ok(ReleaseValue(h[i]))))
  }

  // The requests parked on k after a history, oldest first.
  function Waiters<K, V>(initial: map<K, V>, h: seq<Entry<K, V>>, k: K): seq<nat> {
    if h == [] then [] else
      var n := |h| - 1;
      var before := Waiters(initial, h[..n], k);
      if k in ReleaseKeys(h[n]) then []
      else if Misses(TableAfter(initial, h[..n]), h[n], k) then before + [n]
      else before
  }

  // ----- Facts about the specification -----

  // Whether a request wrote or removed k.
  predicate ActsOn<K(==), V>(e: Entry<K, V>, k: K) {
    e.outcome.Success? &&
    match e.request
    case AsyncWrite(k', _) => k' == k
    case SyncWrite(k', _) => k' == k
    case SyncWriteAll(kvs) => k in KeysOf(kvs)
    case Remove(k') => k' == k
    case RemoveAll(ks) => k in ks
    case _ => false
  }

  // A request leaves every other key alone, writes leave their keys present and removals absent.
  lemma EffectOnKey<K, V>(table: map<K, V>, e: Entry<K, V>, k: K)
    ensures !ActsOn(e, k) ==> Lookup(Effect(table, e), k) == Lookup(table, k)
    ensures ActsOn(e, k) ==> (k in Effect(table, e) <==> !e.request.Remove? && !e.request.RemoveAll?)
  {
    match e.request {
      case SyncWriteAll(kvs) => PutAllKeys(table, kvs);
      case RemoveAll(ks) => DropAllKeys(table, ks);
      case _ =>
    }
  }

  // Appending to a history does not change what its prefix settled.
  lemma {:induction false} FirstReleaseExtends<K, V>(h: seq<Entry<K, V>>, e: Entry<K, V>, k: K, i: nat)
    requires i <= |h|
    ensures FirstRelease(h + [e], k, i) ==
            if FirstRelease(h, k, i).Some? then FirstRelease(h, k, i)
            else if k in ReleaseKeys(e) then Some(|h|) else None
    decreases |h| - i
  {
    if i < |h| && k !in ReleaseKeys(h[i]) {
      FirstReleaseExtends(h, e, k, i + 1);
    }
  }

  lemma SettlerExtends<K, V>(initial: map<K, V>, h: seq<Entry<K, V>>, e: Entry<K, V>, t: nat)
    requires t < |h|
    ensures Settler(initial, h, t).Some? ==> Settler(initial, h + [e], t) == Settler(initial, h, t)
    ensures Settler(initial, h, t).None? && h[t].request.WantsReply() ==>
              h[t].request.NotifyRead? &&
              Settler(initial, h + [e], t) == if h[t].request.key in ReleaseKeys(e) then Some(|h|) else None
  {
    assert (h + [e])[..t] == h[..t];
    if h[t].request.NotifyRead? {
      FirstReleaseExtends(h, e, h[t].request.key, t + 1);
    }
  }

  lemma VerdictExtends<K, V(!new)>(
      codec: ValueCodec<V>, initial: map<K, V>, h: seq<Entry<K, V>>, e: Entry<K, V>, t: nat)
    requires t < |h| && Verdict(codec, initial, h, t).Some?
    ensures Verdict(codec, initial, h + [e], t) == Verdict(codec, initial, h, t)
  {
    SettlerExtends(initial, h, e, t);
    assert (h + [e])[..t] == h[..t];
  }

  // The queue of k holds exactly the unsettled notify_reads of k, each once, in request order.
  lemma {:induction false} WaitersAreUnsettled<K, V>(initial: map<K, V>, h: seq<Entry<K, V>>, k: K)
    ensures forall t: nat :: t in Waiters(initial, h, k) <==>
              t < |h| && h[t].request == NotifyRead(k) && Settler(initial, h, t).None?
    ensures forall i, j :: 0 <= i < j < |Waiters(initial, h, k)| ==>
              Waiters(initial, h, k)[i] < Waiters(initial, h, k)[j]
  {
    hide TableAfter;
    if h != [] {
      var n := |h| - 1;
      WaitersAreUnsettled(initial, h[..n], k);
      assert h[..n] + [h[n]] == h;
      forall t: nat | t < n
        ensures Settler(initial, h[..n], t).Some? ==> Settler(initial, h, t).Some?
        ensures h[t].request == NotifyRead(k) && Settler(initial, h[..n], t).None? ==>
                  (Settler(initial, h, t).None? <==> k !in ReleaseKeys(h[n]))
      {
        SettlerExtends(initial, h[..n], h[n], t);
      }
      var before := Waiters(initial, h[..n], k);
      assert forall i :: 0 <= i < |before| ==> before[i] in before;
    }
  }

  // While a waiter is unsettled, its key keeps what it held when the waiter was parked.
  lemma {:induction false} ParkedKeyIsUntouched<K, V>(initial: map<K, V>, h: seq<Entry<K, V>>, t: nat)
    requires t < |h| && h[t].request.NotifyRead? && Settler(initial, h, t).None?
    ensures Lookup(TableAfter(initial, h), h[t].request.key) == Lookup(TableAfter(initial, h[..t]), h[t].request.key)
  {
    var n := |h| - 1;
    assert h[..n] + [h[n]] == h;
    if t < n {
      SettlerExtends(initial, h[..n], h[n], t);
      ParkedKeyIsUntouched(initial, h[..n], t);
      assert h[..n][..t] == h[..t];
      EffectOnKey(TableAfter(initial, h[..n]), h[n], h[t].request.key);
    }
  }

  // A waiter stays parked on a key that is in the map exactly when its own lookup failed to find it there.
  lemma ParkedOnPresentKey<K, V>(initial: map<K, V>, h: seq<Entry<K, V>>, t: nat)
    requires t < |h| && h[t].request.NotifyRead? && Settler(initial, h, t).None?
    ensures h[t].request.key in TableAfter(initial, h) <==>
            h[t].outcome.Failure? && h[t].request.key in TableAfter(initial, h[..t])
  {
    ParkedKeyIsUntouched(initial, h, t);
  }

  // What the map holds for k after the request that settles a waiter.
  function LookupAfter<K, V>(initial: map<K, V>, h: seq<Entry<K, V>>, i: nat, k: K): Option<V>
    requires i < |h|
  {
    Lookup(TableAfter(initial, h[..i + 1]), k)
  }

  // A notify_read is answered with what the map holds for its key right after the settling request,
  // except by a sync_write_all, which has just stored the key, and by a remove whose database call
  // failed on a present key: both answer that there is nothing.
  lemma NotifyReadAgreesWithMap<K, V(!new)>(codec: ValueCodec<V>, initial: map<K, V>, h: seq<Entry<K, V>>, t: nat)
    requires t < |h| && h[t].request.NotifyRead? && Settler(initial, h, t).Some?
    ensures var i := Settler(initial, h, t).value;
            var k := h[t].request.key;
            (Verdict(codec, initial, h, t) == Some(Found(Ok(LookupAfter(initial, h, i, k)))))
            <==> !(h[i].request.SyncWriteAll?
                   || (h[i].request.Remove? && h[i].outcome.Failure? && k in TableAfter(initial, h[..i])))
  {
    var i := Settler(initial, h, t).value;
    assert h[..i + 1][..i] == h[..i] && h[..i + 1][i] == h[i];
    if i == t {
      assert h[..t + 1][..t] == h[..t];
    }
    EffectOnKey(TableAfter(initial, h[..i]), h[i], h[t].request.key);
  }

  // A waiter whose own lookup did not fail is only misled by sync_write_all.
  lemma MissedNotifyReadAgreesWithMap<K, V(!new)>(codec: ValueCodec<V>, initial: map<K, V>, h: seq<Entry<K, V>>, t: nat)
    requires t < |h| && h[t].request.NotifyRead? && h[t].outcome.Success? && Settler(initial, h, t).Some?
    ensures var i := Settler(initial, h, t).value;
            (Verdict(codec, initial, h, t) == Some(Found(Ok(LookupAfter(initial, h, i, h[t].request.key)))))
            <==> !h[i].request.SyncWriteAll?
  {
    NotifyReadAgreesWithMap(codec, initial, h, t);
    var i := Settler(initial, h, t).value;
    if i > t {
      var k := h[t].request.key;
      assert h[..i][..t] == h[..t];
      ParkedOnPresentKey(initial, h[..i], t);
    }
  }

  // A concrete waiter that sync_write_all answers with None although its key has just been stored.
  lemma SyncWriteAllMisleadsWaiter<V(!new)>(codec: ValueCodec<V>, v: V)
    ensures var h := [Entry(NotifyRead(0), Success), Entry(SyncWriteAll([(0, v)]), Success)];
            && Verdict(codec, map[], h, 0) == Some(Found(Ok(None)))
            && Lookup(TableAfter(map[], h), 0) == Some(v)
  {
    var h: seq<Entry<int, V>> := [Entry(NotifyRead(0), Success), Entry(SyncWriteAll([(0, v)]), Success)];
    assert h[..0] == [] && h[..1] == [h[0]] && h[..1][..0] == [];
    assert KeysOf([(0, v)]) == [0];
    assert FirstRelease(h, 0, 1) == Some(1);
    assert [(0, v)][1..] == [];
    assert TableAfter(map[], h[..1]) == map[];
    assert PutAll(map[], [(0, v)]) == map[0 := v];
  }

  // A concrete waiter, parked by a failed lookup, that a failed remove answers with None although its
  // key has been in the map all along.
  lemma FailedRemoveMisleadsWaiter<V(!new)>(codec: ValueCodec<V>, v: V, e: TypedStoreError)
    ensures var h := [Entry(NotifyRead(0), Failure(e)), Entry(Remove(0), Failure(e))];
            && Verdict(codec, map[0 := v], h, 0) == Some(Found(Ok(None)))
            && TableAfter(map[0 := v], h) == map[0 := v]
  {
    var h: seq<Entry<int, V>> := [Entry(NotifyRead(0), Failure(e)), Entry(Remove(0), Failure(e))];
    assert h[..0] == [] && h[..1] == [h[0]] && h[..1][..0] == [];
    assert FirstRelease(h, 0, 1) == Some(1);
    assert TableAfter(map[0 := v], h[..1]) == map[0 := v];
  }

  // The value of k is decided by the last request that acted on it.
  lemma {:induction false} LastActorDecides<K, V>(initial: map<K, V>, h: seq<Entry<K, V>>, i: nat, k: K)
    requires i < |h|
    requires forall j :: i < j < |h| ==> !ActsOn(h[j], k)
    ensures Lookup(TableAfter(initial, h), k) == LookupAfter(initial, h, i, k)
  {
    var n := |h| - 1;
    if i < n {
      LastActorDecides(initial, h[..n], i, k);
      assert h[..n][..i + 1] == h[..i + 1];
      EffectOnKey(TableAfter(initial, h[..n]), h[n], k);
    } else {
      assert h[..i + 1] == h;
    }
  }

}
