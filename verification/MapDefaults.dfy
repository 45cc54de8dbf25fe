// The default methods of the Map trait, which work one element at a time, next to the atomic batch
// methods that DBMap overrides them with.
module MapDefaults {
  import opened Wrappers
  import opened FixedIntKeys
  import opened KeyEncoding
  import opened Tables
  import opened TypedMap

  // The number of elements before the first one whose insertion fails.
  ghost function Inserted<K(!new), V(!new)>(s: Schema<K, V>, pairs: seq<(K, V)>, ios: seq<Outcome>): (n: nat)
    requires |ios| == |pairs|
    ensures n <= |pairs|
  {
    if pairs == [] || s.key.ser(pairs[0].0).Err? || s.value.ser(pairs[0].1).Err? || ios[0].Failure? then 0
    else 1 + Inserted(s, pairs[1..], ios[1..])
  }

  ghost function Removed<K(!new), V(!new)>(s: Schema<K, V>, keys: seq<K>, ios: seq<Outcome>): (n: nat)
    requires |ios| == |keys|
    ensures n <= |keys|
  {
    if keys == [] || s.key.ser(keys[0]).Err? || ios[0].Failure? then 0
    else 1 + Removed(s, keys[1..], ios[1..])
  }

  predicate CanInsert<K(!new), V(!new)>(s: Schema<K, V>, pair: (K, V), io: Outcome) {
    s.key.ser(pair.0).Ok? && s.value.ser(pair.1).Ok? && io.Success?
  }

  predicate CanRemove<K(!new), V(!new)>(s: Schema<K, V>, key: K, io: Outcome) {
    s.key.ser(key).Ok? && io.Success?
  }

  lemma {:induction false} InsertedCount<K(!new), V(!new)>(
      s: Schema<K, V>, pairs: seq<(K, V)>, ios: seq<Outcome>, i: nat)
    requires |ios| == |pairs| && i <= |pairs|
    requires forall j :: 0 <= j < i ==> CanInsert(s, pairs[j], ios[j])
    requires i < |pairs| ==> !CanInsert(s, pairs[i], ios[i])
    ensures Inserted(s, pairs, ios) == i
  {
    if i > 0 {
      assert CanInsert(s, pairs[0], ios[0]);
      InsertedCount(s, pairs[1..], ios[1..], i - 1);
    }
  }

  lemma {:induction false} RemovedCount<K(!new), V(!new)>(s: Schema<K, V>, keys: seq<K>, ios: seq<Outcome>, i: nat)
    requires |ios| == |keys| && i <= |keys|
    requires forall j :: 0 <= j < i ==> CanRemove(s, keys[j], ios[j])
    requires i < |keys| ==> !CanRemove(s, keys[i], ios[i])
    ensures Removed(s, keys, ios) == i
  {
    if i > 0 {
      assert CanRemove(s, keys[0], ios[0]);
      RemovedCount(s, keys[1..], ios[1..], i - 1);
    }
  }

  // The result and the final map of the defaults, which stop at the first failing element.
  ghost function DefaultInsert<K(!new), V(!new)>(
      cf: string, s: Schema<K, V>, view: map<K, V>, pairs: seq<(K, V)>, ios: seq<Outcome>): (StoreResult<()>, map<K, V>)
    requires |ios| == |pairs|
  {
    var n := Inserted(s, pairs, ios);
    (if n == |pairs| then Ok(()) else Ended(PutOps(cf, s, [pairs[n]]), ios[n]), PutAll(view, pairs[..n]))
  }

  ghost function DefaultRemove<K(!new), V(!new)>(
      cf: string, s: Schema<K, V>, view: map<K, V>, keys: seq<K>, ios: seq<Outcome>): (StoreResult<()>, map<K, V>)
    requires |ios| == |keys|
  {
    var n := Removed(s, keys, ios);
    (if n == |keys| then Ok(()) else Ended(DeleteOps(cf, s, [keys[n]]), ios[n]), DropAll(view, keys[..n]))
  }

  lemma OnePut<K(!new), V(!new)>(cf: string, s: Schema<K, V>, pair: (K, V))
    ensures PutOps(cf, s, [pair]).Ok? <==> s.key.ser(pair.0).Ok? && s.value.ser(pair.1).Ok?
  {
    PutOpsSucceed(cf, s, [pair]);
  }

  lemma OneDelete<K(!new), V(!new)>(cf: string, s: Schema<K, V>, key: K)
    ensures DeleteOps(cf, s, [key]).Ok? <==> s.key.ser(key).Ok?
  {
    DeleteOpsSucceed(cf, s, [key]);
  }

  // Inserts until one element fails: exactly the elements before it are applied.
  method MultiInsert<K(==,!new), V(!new)>(
      db: DBMap<K, V>, pairs: seq<(K, V)>, ios: seq<Outcome>) returns (r: StoreResult<()>)
    requires db.Valid() && |ios| == |pairs|
    modifies db.rocksdb
    ensures db.Valid()
    ensures (r, db.View()) == DefaultInsert(db.cf, db.schema, old(db.View()), pairs, ios)
  {
    hide DBMap.Valid, DBMap.View;
    ghost var start := db.View();
    ghost var applied := start;
    for i := 0 to |pairs|
      invariant db.Valid() && db.View() == applied && applied == PutAll(start, pairs[..i])
      invariant forall j :: 0 <= j < i ==> CanInsert(db.schema, pairs[j], ios[j])
    {
      PutAllLast(start, pairs, i);
      OnePut(db.cf, db.schema, pairs[i]);
      var inserted := db.Insert(pairs[i].0, pairs[i].1, ios[i]);
      if inserted.Err? {
        InsertedCount(db.schema, pairs, ios, i);
        return Err(inserted.error);
      }
      applied := applied[pairs[i].0 := pairs[i].1];
    }
    InsertedCount(db.schema, pairs, ios, |pairs|);
    r := Ok(());
  }

  method MultiRemove<K(==,!new), V(!new)>(db: DBMap<K, V>, keys: seq<K>, ios: seq<Outcome>) returns (r: StoreResult<()>)
    requires db.Valid() && |ios| == |keys|
    modifies db.rocksdb
    ensures db.Valid()
    ensures (r, db.View()) == DefaultRemove(db.cf, db.schema, old(db.View()), keys, ios)
  {
    hide DBMap.Valid, DBMap.View;
    ghost var start := db.View();
    ghost var applied := start;
    for i := 0 to |keys|
      invariant db.Valid() && db.View() == applied && applied == DropAll(start, keys[..i])
      invariant forall j :: 0 <= j < i ==> CanRemove(db.schema, keys[j], ios[j])
    {
      DropAllLast(start, keys, i);
      OneDelete(db.cf, db.schema, keys[i]);
      var removed := db.Remove(keys[i], ios[i]);
      if removed.Err? {
        RemovedCount(db.schema, keys, ios, i);
        return Err(removed.error);
      }
      applied := applied - {keys[i]};
    }
    RemovedCount(db.schema, keys, ios, |keys|);
    r := Ok(());
  }

  // ----- The batched forms against the defaults -----

  ghost function FirstBadPair<K(!new), V(!new)>(s: Schema<K, V>, pairs: seq<(K, V)>): (n: nat)
    ensures n <= |pairs|
    ensures n < |pairs| ==> s.key.ser(pairs[n].0).Err? || s.value.ser(pairs[n].1).Err?
    ensures forall j :: 0 <= j < n ==> s.key.ser(pairs[j].0).Ok? && s.value.ser(pairs[j].1).Ok?
  {
    if pairs == [] || s.key.ser(pairs[0].0).Err? || s.value.ser(pairs[0].1).Err? then 0
    else 1 + FirstBadPair(s, pairs[1..])
  }

  function PairError<K(!new), V(!new)>(s: Schema<K, V>, pair: (K, V)): TypedStoreError
    requires s.key.ser(pair.0).Err? || s.value.ser(pair.1).Err?
  {
    if s.key.ser(pair.0).Err? then s.key.ser(pair.0).error else s.value.ser(pair.1).error
  }

  lemma {:induction false} PutOpsFailAtBadPair<K(!new), V(!new)>(cf: string, s: Schema<K, V>, pairs: seq<(K, V)>)
    ensures var k := FirstBadPair(s, pairs);
            && (PutOps(cf, s, pairs).Ok? <==> k == |pairs|)
            && (k < |pairs| ==> PutOps(cf, s, pairs) == Err(PairError(s, pairs[k])))
  {
    if pairs != [] {
      PutOpsFailAtBadPair(cf, s, pairs[1..]);
    }
  }

  lemma {:induction false} DeleteOpsFailAtBadKey<K(!new), V(!new)>(cf: string, s: Schema<K, V>, keys: seq<K>)
    ensures var k := FirstBadKey(s, keys);
            && (DeleteOps(cf, s, keys).Ok? <==> k == |keys|)
            && (k < |keys| ==> DeleteOps(cf, s, keys) == Err(s.key.ser(keys[k]).error))
  {
    if keys != [] {
      DeleteOpsFailAtBadKey(cf, s, keys[1..]);
    }
  }

  lemma {:induction false} InsertedUpToFailure<K(!new), V(!new)>(s: Schema<K, V>, pairs: seq<(K, V)>, ios: seq<Outcome>)
    requires |ios| == |pairs|
    ensures var k, i := FirstBadPair(s, pairs), FirstFailure(ios);
            Inserted(s, pairs, ios) == if k <= i then k else i
  {
    if pairs != [] {
      InsertedUpToFailure(s, pairs[1..], ios[1..]);
    }
  }

  lemma {:induction false} RemovedUpToFailure<K(!new), V(!new)>(s: Schema<K, V>, keys: seq<K>, ios: seq<Outcome>)
    requires |ios| == |keys|
    ensures var k, i := FirstBadKey(s, keys), FirstFailure(ios);
            Removed(s, keys, ios) == if k <= i then k else i
  {
    if keys != [] {
      RemovedUpToFailure(s, keys[1..], ios[1..]);
    }
  }

  // The result and the final map of DBMap's multi_insert and multi_remove.
  ghost function BatchInsert<K(!new), V(!new)>(
      cf: string, s: Schema<K, V>, view: map<K, V>, pairs: seq<(K, V)>, io: Outcome): (StoreResult<()>, map<K, V>)
  {
    var r := Ended(PutOps(cf, s, pairs), io);
    (r, if r.Ok? then PutAll(view, pairs) else view)
  }

  ghost function BatchRemove<K(!new), V(!new)>(
      cf: string, s: Schema<K, V>, view: map<K, V>, keys: seq<K>, io: Outcome): (StoreResult<()>, map<K, V>)
  {
    var r := Ended(DeleteOps(cf, s, keys), io);
    (r, if r.Ok? then DropAll(view, keys) else view)
  }

  // When both forms succeed they leave the same map. A failing default leaves the elements before the
  // failing one applied, a failing batch none. The two report the same result exactly if an
  // unserializable pair comes no later than the first failing call, or hides the same error, or else
  // if the one call of the batch ends as the calls of the loop do.
  lemma BatchInsertRefinesDefault<K(!new), V(!new)>(
      cf: string, s: Schema<K, V>, view: map<K, V>, pairs: seq<(K, V)>, ios: seq<Outcome>, io: Outcome)
    requires |ios| == |pairs|
    ensures var d, b := DefaultInsert(cf, s, view, pairs, ios), BatchInsert(cf, s, view, pairs, io);
            var k, i := FirstBadPair(s, pairs), FirstFailure(ios);
            && (d.0.Ok? <==> k == |pairs| && i == |ios|)
            && (b.0.Ok? <==> k == |pairs| && io.Success?)
            && (d.0.Ok? && b.0.Ok? ==> d == b)
            && (d.0.Err? ==> d.1 == PutAll(view, pairs[..if k <= i then k else i]))
            && (b.0.Err? ==> b.1 == view)
            && (d.0 == b.0 <==> if k < |pairs| then k <= i || ios[i].error == PairError(s, pairs[k])
                                else io == if i < |ios| then ios[i] else Success)
  {
    hide PutAll;
    var n := Inserted(s, pairs, ios);
    InsertedUpToFailure(s, pairs, ios);
    PutOpsFailAtBadPair(cf, s, pairs);
    assert pairs[..|pairs|] == pairs;
    if n < |pairs| {
      PutOpsFailAtBadPair(cf, s, [pairs[n]]);
      OnePut(cf, s, pairs[n]);
    }
  }

  lemma BatchRemoveRefinesDefault<K(!new), V(!new)>(
      cf: string, s: Schema<K, V>, view: map<K, V>, keys: seq<K>, ios: seq<Outcome>, io: Outcome)
    requires |ios| == |keys|
    ensures var d, b := DefaultRemove(cf, s, view, keys, ios), BatchRemove(cf, s, view, keys, io);
            var k, i := FirstBadKey(s, keys), FirstFailure(ios);
            && (d.0.Ok? <==> k == |keys| && i == |ios|)
            && (b.0.Ok? <==> k == |keys| && io.Success?)
            && (d.0.Ok? && b.0.Ok? ==> d == b)
            && (d.0.Err? ==> d.1 == DropAll(view, keys[..if k <= i then k else i]))
            && (b.0.Err? ==> b.1 == view)
            && (d.0 == b.0 <==> if k < |keys| then k <= i || ios[i].error == s.key.ser(keys[k]).error
                                else io == if i < |ios| then ios[i] else Success)
  {
    hide DropAll;
    var n := Removed(s, keys, ios);
    RemovedUpToFailure(s, keys, ios);
    DeleteOpsFailAtBadKey(cf, s, keys);
    assert keys[..|keys|] == keys;
    if n < |keys| {
      DeleteOpsFailAtBadKey(cf, s, [keys[n]]);
      OneDelete(cf, s, keys[n]);
    }
  }

  // ----- multi_get -----

  // The gets of the default, in order, up to the first error.
  ghost function MappedGets<K(!new), V(!new)>(
      s: Schema<K, V>, view: map<K, V>, keys: seq<K>, ios: seq<Outcome>): StoreResult<seq<Option<V>>>
    requires |ios| == |keys|
  {
    if keys == [] then Ok([]) else
      match GetResult(s, view, keys[0], ios[0])
      case Err(e) => Err(e)
      case Ok(v) =>
        match MappedGets(s, view, keys[1..], ios[1..])
        case Err(e) => Err(e)
        case Ok(vs) => Ok([v] + vs)
  }

  function Prepend<T>(values: seq<T>, rest: StoreResult<seq<T>>): StoreResult<seq<T>> {
    match rest
    case Err(e) => Err(e)
    case Ok(vs) => Ok(values + vs)
  }

  lemma PrependNothing<T>(r: StoreResult<seq<T>>, values: seq<T>)
    ensures Prepend([], r) == r && Prepend(values, Ok([])) == Ok(values)
  {
    assert values + [] == values;
    if r.Ok? {
      assert [] + r.value == r.value;
    }
  }

  lemma MappedGetsStep<K(!new), V(!new)>(
      s: Schema<K, V>, view: map<K, V>, keys: seq<K>, ios: seq<Outcome>, i: nat, values: seq<Option<V>>)
    requires |ios| == |keys| && i < |keys|
    ensures Prepend(values, MappedGets(s, view, keys[i..], ios[i..])) ==
            match GetResult(s, view, keys[i], ios[i])
            case Err(e) => Err(e)
            case Ok(v) => Prepend(values + [v], MappedGets(s, view, keys[i + 1..], ios[i + 1..]))
  {
    assert keys[i..][1..] == keys[i + 1..] && ios[i..][1..] == ios[i + 1..];
    var rest := MappedGets(s, view, keys[i + 1..], ios[i + 1..]);
    var got := GetResult(s, view, keys[i], ios[i]);
    if got.Ok? && rest.Ok? {
      assert values + ([got.value] + rest.value) == values + [got.value] + rest.value;
    }
  }

  method MultiGet<K(==,!new), V(!new)>(
      db: DBMap<K, V>, keys: seq<K>, ios: seq<Outcome>) returns (r: StoreResult<seq<Option<V>>>)
    requires db.Valid() && |ios| == |keys|
    ensures r == MappedGets(db.schema, db.View(), keys, ios)
  {
    hide DBMap.Valid, DBMap.View;
    var values: seq<Option<V>> := [];
    ghost var view := db.View();
    ghost var expected := MappedGets(db.schema, view, keys, ios);
    assert keys[0..] == keys && ios[0..] == ios;
    PrependNothing(expected, values);
    for i := 0 to |keys|
      invariant Prepend(values, MappedGets(db.schema, view, keys[i..], ios[i..])) == expected
    {
      MappedGetsStep(db.schema, view, keys, ios, i, values);
      var got := db.Get(keys[i], ios[i]);
      if got.Err? {
        return Err(got.error);
      }
      values := values + [got.value];
    }
    PrependNothing(expected, values);
    r := Ok(values);
  }

  lemma {:induction false} MappedGetsByFirstFailure<K(!new), V(!new)>(
      s: Schema<K, V>, view: map<K, V>, keys: seq<K>, ios: seq<Outcome>)
    requires |ios| == |keys|
    ensures var k, i := FirstBadKey(s, keys), FirstFailure(ios);
            MappedGets(s, view, keys, ios) ==
            if k < |keys| && k <= i then Err(s.key.ser(keys[k]).error)
            else if i < |ios| then Err(ios[i].error)
            else Ok(LookupAll(view, keys))
  {
    if keys == [] {
      assert LookupAll(view, keys) == [];
    } else {
      MappedGetsByFirstFailure(s, view, keys[1..], ios[1..]);
      if GetResult(s, view, keys[0], ios[0]).Ok? {
        assert LookupAll(view, keys) == [Lookup(view, keys[0])] + LookupAll(view, keys[1..]);
      }
    }
  }

  // The batched multi_get equals the mapped gets, except that a key that cannot be serialized hides
  // a different error of an earlier read.
  lemma MultiGetAgreesWithGets<K(!new), V(!new)>(s: Schema<K, V>, view: map<K, V>, keys: seq<K>, ios: seq<Outcome>)
    requires |ios| == |keys|
    ensures var k, i := FirstBadKey(s, keys), FirstFailure(ios);
            BatchedGets(s, view, keys, ios) == MappedGets(s, view, keys, ios)
            <==> !(i < k < |keys| && ios[i].error != s.key.ser(keys[k]).error)
    ensures BatchedGets(s, view, keys, ios).Ok? <==> MappedGets(s, view, keys, ios).Ok?
  {
    MappedGetsByFirstFailure(s, view, keys, ios);
  }

  // A concrete input on which they differ: the first call fails and the second key is bad.
  lemma BadKeyHidesEarlierError<V(!new)>(values: ValueCodec<V>, view: map<Key, V>, v: V)
    requires values.ser(v).Ok?
    ensures var s := Schema(BeFixIntCodec(Unsigned(1)), values);
            var keys, pairs := [Number(0), Unserializable], [(Number(0), v), (Unserializable, v)];
            var io, bad := RocksDBError("IO error"), SerializationError("key");
            var ios := [Failure(io), Success];
            && MappedGets(s, view, keys, ios) == Err(io) && BatchedGets(s, view, keys, ios) == Err(bad)
            && DefaultInsert("cf", s, view, pairs, ios).0 == Err(io)
            && BatchInsert("cf", s, view, pairs, Success).0 == Err(bad)
            && DefaultRemove("cf", s, view, keys, ios).0 == Err(io)
            && BatchRemove("cf", s, view, keys, Success).0 == Err(bad)
  {
    var s := Schema(BeFixIntCodec(Unsigned(1)), values);
    var keys, pairs := [Number(0), Unserializable], [(Number(0), v), (Unserializable, v)];
    var ios := [Failure(RocksDBError("IO error")), Success];
    NumberKeys(1, 0, 0);
    assert s.key.ser(Number(0)).Ok? && s.key.ser(Unserializable) == Err(SerializationError("key"));
    MappedGetsByFirstFailure(s, view, keys, ios);
    PutOpsFailAtBadPair("cf", s, pairs);
    DeleteOpsFailAtBadKey("cf", s, keys);
    BatchInsertRefinesDefault("cf", s, view, pairs, ios, Success);
    BatchRemoveRefinesDefault("cf", s, view, keys, ios, Success);
    FirstCallFails(s, pairs, keys, ios);
  }

  lemma FirstCallFails<K(!new), V(!new)>(s: Schema<K, V>, pairs: seq<(K, V)>, keys: seq<K>, ios: seq<Outcome>)
    requires |ios| == |pairs| == |keys| > 0 && ios[0].Failure?
    requires s.key.ser(keys[0]).Ok? && s.key.ser(pairs[0].0).Ok? && s.value.ser(pairs[0].1).Ok?
    ensures forall cf, view :: DefaultInsert(cf, s, view, pairs, ios).0 == Err(ios[0].error)
    ensures forall cf, view :: DefaultRemove(cf, s, view, keys, ios).0 == Err(ios[0].error)
  {
    forall cf, view: map<K, V>
      ensures DefaultInsert(cf, s, view, pairs, ios).0 == Err(ios[0].error)
      ensures DefaultRemove(cf, s, view, keys, ios).0 == Err(ios[0].error)
    {
      OnePut(cf, s, pairs[0]);
      OneDelete(cf, s, keys[0]);
    }
  }

  // ----- get_or_insert_unsafe -----

  // Returns what the map holds for the key, after storing the default if it held nothing. When only
  // the final read fails, the default has been stored nevertheless.
  method GetOrInsertUnsafe<K(==,!new), V(!new)>(
      db: DBMap<K, V>, key: K, default_: () -> V, first: Outcome, second: Outcome, third: Outcome)
    returns (r: StoreResult<V>)
    requires db.Valid()
    modifies db.rocksdb
    ensures db.Valid()
    ensures r.Ok? ==> Lookup(db.View(), key) == Some(r.value)
    ensures db.View() ==
            if first.Success? && key !in old(db.View()) && db.schema.key.ser(key).Ok?
               && db.schema.value.ser(default_()).Ok? && second.Success?
            then old(db.View())[key := default_()] else old(db.View())
    ensures r == match GetResult(db.schema, old(db.View()), key, first)
                 case Err(e) => Err(e)
                 case Ok(Some(v)) => Ok(v)
                 case Ok(None) =>
                   match Ended(PutOps(db.cf, db.schema, [(key, default_())]), second)
                   case Err(e) => Err(e)
                   case Ok(_) => if third.Success? then Ok(default_()) else Err(third.error)
  {
    hide DBMap.Valid, DBMap.View;
    var got := db.Get(key, first);
    if got.Err? {
      return Err(got.error);
    }
    match got.value {
      case Some(v) =>
        r := Ok(v);
      case None =>
        var default := default_();
        OnePut(db.cf, db.schema, (key, default));
        var inserted := db.Insert(key, default, second);
        if inserted.Err? {
          return Err(inserted.error);
        }
        var again := db.Get(key, third);
        if again.Err? {
          return Err(again.error);
        }
        assert again.value.Some?;   // the expect in the source cannot panic
        r := Ok(again.value.value);
    }
  }
}
