// Chains of batch calls over several column families, ended by write: the whole chain is atomic and
// means its operations one by one, in order, on the typed maps.
module BatchChains {
  import opened Wrappers
  import opened Tables
  import opened Rocks
  import opened TypedMap

  // One call of the builder chain and its arguments.
  datatype BatchCall<K(==,!new), V(!new)> =
    | InsertCall(db: DBMap<K, V>, pairs: seq<(K, V)>)
    | DeleteCall(db: DBMap<K, V>, keys: seq<K>)
    | RangeCall(db: DBMap<K, V>, from: K, to: K)

  ghost function CallOps<K(!new), V(!new)>(rocksdb: RocksDB, c: BatchCall<K, V>): StoreResult<seq<WriteOp>> {
    if c.db.rocksdb != rocksdb then Err(CrossDBBatch) else
      match c
      case InsertCall(db, pairs) => PutOps(db.cf, db.schema, pairs)
      case DeleteCall(db, keys) => DeleteOps(db.cf, db.schema, keys)
      case RangeCall(db, from, to) => RangeOps(db.cf, db.schema, from, to)
  }

  // A call of a chain over two pairs of key and value types.
  datatype Sum<+A, +B> = Left(left: A) | Right(right: B)

  type MixedCall<!K1(!new), !V1(!new), !K2(!new), !V2(!new)> = Sum<BatchCall<K1, V1>, BatchCall<K2, V2>>

  // What each call of a chain appends to the batch, or its error.
  type Appends = seq<StoreResult<seq<WriteOp>>>

  ghost function MixedAppends<K1(!new), V1(!new), K2(!new), V2(!new)>(
    rocksdb: RocksDB, calls: seq<MixedCall<K1, V1, K2, V2>>): (results: Appends)
    ensures |results| == |calls|
    ensures forall i :: 0 <= i < |calls| && calls[i].Left? ==> results[i] == CallOps(rocksdb, calls[i].left)
    ensures forall i :: 0 <= i < |calls| && calls[i].Right? ==> results[i] == CallOps(rocksdb, calls[i].right)
  {
    seq(|calls|, i requires 0 <= i < |calls| =>
      match calls[i]
      case Left(c) => CallOps(rocksdb, c)
      case Right(c) => CallOps(rocksdb, c))
  }

  // The operations of a chain, or the error of its first failing call.
  function ChainOps(results: Appends): StoreResult<seq<WriteOp>> {
    if results == [] then Ok([]) else
      match results[0]
      case Err(e) => Err(e)
      case Ok(ops) =>
        match ChainOps(results[1..])
        case Err(e) => Err(e)
        case Ok(rest) => Ok(ops + rest)
  }

  // Builds a batch call by call, giving up at the first error, and writes it.
  method RunChain<K1(==,!new), V1(!new), K2(==,!new), V2(!new)>(
    rocksdb: RocksDB, calls: seq<MixedCall<K1, V1, K2, V2>>, io: Outcome) returns (r: StoreResult<()>)
    modifies rocksdb
    ensures r == Ended(ChainOps(MixedAppends(rocksdb, calls)), io)
    ensures rocksdb.families ==
            if r.Ok? then ApplyOps(old(rocksdb.families), ChainOps(MixedAppends(rocksdb, calls)).value)
            else old(rocksdb.families)
  {
    var b := new DBBatch(rocksdb);
    ghost var results := MixedAppends(rocksdb, calls);
    assert forall ops: seq<WriteOp> :: [] + ops == ops;
    for i := 0 to |calls|
      invariant fresh(b) && b.rocksdb == rocksdb && !b.spent && rocksdb.families == old(rocksdb.families)
      invariant match ChainOps(results[i..])
                case Err(e) => ChainOps(results) == Err(e)
                case Ok(ops) => ChainOps(results) == Ok(b.batch + ops)
    {
      assert results[i..][1..] == results[i + 1..];
      ghost var before := b.batch;
      var called: StoreResult<()>;
      match calls[i] {
        case Left(c) => called := RunCall(b, c);
        case Right(c) => called := RunCall(b, c);
      }
      if called.Err? {
        return Err(called.error);
      }
      assert forall rest: seq<WriteOp> :: (before + results[i].value) + rest == before + (results[i].value + rest);
    }
    assert b.batch + [] == b.batch;
    r := b.Write(io);
  }

  method RunCall<K(==,!new), V(!new)>(b: DBBatch, c: BatchCall<K, V>) returns (called: StoreResult<()>)
    requires !b.spent
    modifies b
    ensures b.spent <==> called.Err?
    ensures match CallOps(b.rocksdb, c)
            case Ok(ops) => called.Ok? && b.batch == old(b.batch) + ops
            case Err(e) => called == Err(e)
  {
    match c {
      case InsertCall(db, pairs) => called := b.InsertBatch(db, pairs);
      case DeleteCall(db, keys) => called := b.DeleteBatch(db, keys);
      case RangeCall(db, from, to) => called := b.DeleteRangeOf(db, from, to);
    }
  }

  // ----- The same chain on typed maps -----

  type Views<K, V> = map<string, map<K, V>>

  ghost function MapEffect<K(!new), V(!new)>(m: map<K, V>, c: BatchCall<K, V>): map<K, V> {
    match c
    case InsertCall(_, pairs) => PutAll(m, pairs)
    case DeleteCall(_, keys) => DropAll(m, keys)
    case RangeCall(db, from, to) => DropRange(db.schema.key, m, from, to)
  }

  ghost function CallEffect<K(!new), V(!new)>(views: Views<K, V>, c: BatchCall<K, V>): Views<K, V> {
    if c.db.cf !in views then views else views[c.db.cf := MapEffect(views[c.db.cf], c)]
  }

  ghost function ChainEffect<K(!new), V(!new)>(views: Views<K, V>, calls: seq<BatchCall<K, V>>): Views<K, V>
    decreases |calls|
  {
    if calls == [] then views else ChainEffect(CallEffect(views, calls[0]), calls[1..])
  }

  // The column families of some key and value types, which may be a part of all families, are
  // well-formed tables of their schemas.
  ghost predicate Consistent<K(!new), V(!new)>(schemas: map<string, Schema<K, V>>, fs: Families) {
    && schemas.Keys <= fs.Keys
    && forall f :: f in schemas ==> schemas[f].Lawful() && schemas[f].key.Ordered() && schemas[f].WellFormed(fs[f])
  }

  ghost predicate UsesSchema<K(!new), V(!new)>(schemas: map<string, Schema<K, V>>, c: BatchCall<K, V>) {
    c.db.cf in schemas && c.db.schema == schemas[c.db.cf]
  }

  ghost function ViewsOf<K(!new), V(!new)>(schemas: map<string, Schema<K, V>>, fs: Families): Views<K, V>
    requires Consistent(schemas, fs)
  {
    map f | f in schemas :: schemas[f].View(fs[f])
  }

  lemma OneViewChanges<K(!new), V(!new)>(schemas: map<string, Schema<K, V>>, fs: Families, f: string, t: Table)
    requires Consistent(schemas, fs) && f in schemas && schemas[f].WellFormed(t)
    ensures Consistent(schemas, fs[f := t])
    ensures ViewsOf(schemas, fs[f := t]) == ViewsOf(schemas, fs)[f := schemas[f].View(t)]
  {
    hide Schema.View, Schema.WellFormed, KeyCodec.Ordered, Schema.Lawful;
  }

  // A call changes the map of its own column family alone, whatever types the other families have.
  lemma CallChangesOwnMap<K(!new), V(!new)>(rocksdb: RocksDB, fs: Families, c: BatchCall<K, V>)
    requires c.db.cf in fs && c.db.schema.Lawful() && c.db.schema.key.Ordered() && c.db.schema.WellFormed(fs[c.db.cf])
    requires CallOps(rocksdb, c).Ok?
    ensures var f, s, fs' := c.db.cf, c.db.schema, ApplyOps(fs, CallOps(rocksdb, c).value);
            && f in fs' && fs' == fs[f := fs'[f]]
            && s.WellFormed(fs'[f]) && s.View(fs'[f]) == MapEffect(s.View(fs[f]), c)
  {
    var f, s, ops := c.db.cf, c.db.schema, CallOps(rocksdb, c).value;
    match c {
      case InsertCall(_, pairs) => PutOpsMeanPutAll(s, f, fs[f], pairs);
      case DeleteCall(_, keys) => DeleteOpsMeanDropAll(s, f, fs[f], keys);
      case RangeCall(_, from, to) => RangeOpsMeanDropRange(s, f, fs[f], from, to);
    }
    ApplyOpsToOneFamily(fs, ops, f);
  }

  lemma CallMeansEffect<K(!new), V(!new)>(
      rocksdb: RocksDB, schemas: map<string, Schema<K, V>>, fs: Families, c: BatchCall<K, V>)
    requires Consistent(schemas, fs) && UsesSchema(schemas, c) && CallOps(rocksdb, c).Ok?
    ensures var fs' := ApplyOps(fs, CallOps(rocksdb, c).value);
            Consistent(schemas, fs') && ViewsOf(schemas, fs') == CallEffect(ViewsOf(schemas, fs), c)
  {
    hide Schema.View, Schema.WellFormed, KeyCodec.Ordered, Schema.Lawful, CallOps, MapEffect;
    CallChangesOwnMap(rocksdb, fs, c);
    OneViewChanges(schemas, fs, c.db.cf, ApplyOps(fs, CallOps(rocksdb, c).value)[c.db.cf]);
  }

  // Operations on other families leave the families of the schemas alone.
  lemma {:induction false} OtherFamiliesAreKept(fs: Families, ops: seq<WriteOp>, f: string)
    requires f in fs && forall i :: 0 <= i < |ops| ==> ops[i].cf != f
    ensures f in ApplyOps(fs, ops) && ApplyOps(fs, ops)[f] == fs[f]
    decreases |ops|
  {
    if ops != [] {
      OtherFamiliesAreKept(ApplyOp(fs, ops[0]), ops[1..], f);
    }
  }

  ghost predicate Avoids<K(!new), V(!new)>(result: StoreResult<seq<WriteOp>>, schemas: map<string, Schema<K, V>>) {
    result.Ok? ==> forall i :: 0 <= i < |result.value| ==> result.value[i].cf !in schemas
  }

  lemma OtherCallKeepsViews<K(!new), V(!new)>(schemas: map<string, Schema<K, V>>, fs: Families, ops: seq<WriteOp>)
    requires Consistent(schemas, fs) && Avoids(Ok(ops), schemas)
    ensures Consistent(schemas, ApplyOps(fs, ops)) && ViewsOf(schemas, ApplyOps(fs, ops)) == ViewsOf(schemas, fs)
  {
    hide Schema.View, Schema.WellFormed, KeyCodec.Ordered, Schema.Lawful;
    forall f | f in schemas ensures f in ApplyOps(fs, ops) && ApplyOps(fs, ops)[f] == fs[f] {
      OtherFamiliesAreKept(fs, ops, f);
    }
  }

  // ----- Chains over any number of types -----

  // The calls of a chain that are over one pair of types; the calls over other types are None.
  ghost predicate CallsOf<K(!new), V(!new)>(
    rocksdb: RocksDB, schemas: map<string, Schema<K, V>>, calls: seq<Option<BatchCall<K, V>>>, results: Appends)
  {
    && |calls| == |results|
    && forall i :: 0 <= i < |calls| ==>
         match calls[i]
         case Some(c) => UsesSchema(schemas, c) && results[i] == CallOps(rocksdb, c)
         case None => Avoids(results[i], schemas)
  }

  function Somes<T>(s: seq<Option<T>>): seq<T> {
    if s == [] then [] else (if s[0].Some? then [s[0].value] else []) + Somes(s[1..])
  }

  // Writing the batch of a chain gives the maps that its calls give one by one, in order. This holds
  // for each pair of key and value types in the chain, over the families of these types, whatever the
  // other calls of the chain are.
  lemma {:induction false} ChainMeansEffect<K(!new), V(!new)>(
    rocksdb: RocksDB, schemas: map<string, Schema<K, V>>, fs: Families, calls: seq<Option<BatchCall<K, V>>>,
    results: Appends)
    requires Consistent(schemas, fs) && CallsOf(rocksdb, schemas, calls, results) && ChainOps(results).Ok?
    ensures var fs' := ApplyOps(fs, ChainOps(results).value);
            Consistent(schemas, fs') && ViewsOf(schemas, fs') == ChainEffect(ViewsOf(schemas, fs), Somes(calls))
    decreases |calls|
  {
    hide Consistent, ViewsOf, CallOps, CallEffect, Avoids, UsesSchema;
    if calls != [] {
      var ops := results[0].value;
      match calls[0] {
        case Some(c) =>
          CallMeansEffect(rocksdb, schemas, fs, c);
          assert Somes(calls) == [c] + Somes(calls[1..]);
        case None =>
          OtherCallKeepsViews(schemas, fs, ops);
          assert Somes(calls) == Somes(calls[1..]);
      }
      ChainMeansEffect(rocksdb, schemas, ApplyOps(fs, ops), calls[1..], results[1..]);
      ApplyOpsConcat(fs, ops, ChainOps(results[1..]).value);
    }
  }

  function Lefts<A, B>(s: seq<Sum<A, B>>): (r: seq<Option<A>>)
    ensures |r| == |s| && forall i :: 0 <= i < |s| ==> r[i] == if s[i].Left? then Some(s[i].left) else None
  {
    seq(|s|, i requires 0 <= i < |s| => if s[i].Left? then Some(s[i].left) else None)
  }

  function Rights<A, B>(s: seq<Sum<A, B>>): (r: seq<Option<B>>)
    ensures |r| == |s| && forall i :: 0 <= i < |s| ==> r[i] == if s[i].Right? then Some(s[i].right) else None
  {
    seq(|s|, i requires 0 <= i < |s| => if s[i].Right? then Some(s[i].right) else None)
  }

  ghost predicate StaysIn(result: StoreResult<seq<WriteOp>>, cf: string) {
    result.Ok? ==> forall i :: 0 <= i < |result.value| ==> result.value[i].cf == cf
  }

  lemma {:induction false} PutOpsStayInFamily<K(!new), V(!new)>(cf: string, s: Schema<K, V>, pairs: seq<(K, V)>)
    ensures StaysIn(PutOps(cf, s, pairs), cf)
  {
    if pairs != [] {
      PutOpsStayInFamily(cf, s, pairs[1..]);
    }
  }

  lemma {:induction false} DeleteOpsStayInFamily<K(!new), V(!new)>(cf: string, s: Schema<K, V>, keys: seq<K>)
    ensures StaysIn(DeleteOps(cf, s, keys), cf)
  {
    if keys != [] {
      DeleteOpsStayInFamily(cf, s, keys[1..]);
    }
  }

  lemma CallStaysInFamily<K(!new), V(!new)>(rocksdb: RocksDB, c: BatchCall<K, V>)
    ensures StaysIn(CallOps(rocksdb, c), c.db.cf)
  {
    hide PutOps, DeleteOps;
    match c {
      case InsertCall(db, pairs) => PutOpsStayInFamily(db.cf, db.schema, pairs);
      case DeleteCall(db, keys) => DeleteOpsStayInFamily(db.cf, db.schema, keys);
      case RangeCall(_, _, _) =>
    }
  }

  lemma {:induction false} ChainStaysInFamilies(results: Appends, cfs: set<string>)
    requires ChainOps(results).Ok?
    requires forall i, j :: 0 <= i < |results| && results[i].Ok? && 0 <= j < |results[i].value| ==>
               results[i].value[j].cf in cfs
    ensures forall i :: 0 <= i < |ChainOps(results).value| ==> ChainOps(results).value[i].cf in cfs
  {
    if results != [] {
      ChainStaysInFamilies(results[1..], cfs);
      assert forall j :: 0 <= j < |results[0].value| ==> results[0].value[j].cf in cfs;
    }
  }

  // A chain over families of two different pairs of types, in any order: writing it gives on each side
  // what that side's calls give one by one, and no other family changes.
  lemma MixedChainMeansEffects<K1(!new), V1(!new), K2(!new), V2(!new)>(
    rocksdb: RocksDB, left: map<string, Schema<K1, V1>>, right: map<string, Schema<K2, V2>>, fs: Families,
    calls: seq<MixedCall<K1, V1, K2, V2>>)
    requires Consistent(left, fs) && Consistent(right, fs) && left.Keys !! right.Keys
    requires forall i :: 0 <= i < |calls| && calls[i].Left? ==> UsesSchema(left, calls[i].left)
    requires forall i :: 0 <= i < |calls| && calls[i].Right? ==> UsesSchema(right, calls[i].right)
    requires ChainOps(MixedAppends(rocksdb, calls)).Ok?
    ensures var fs' := ApplyOps(fs, ChainOps(MixedAppends(rocksdb, calls)).value);
            && Consistent(left, fs') && ViewsOf(left, fs') == ChainEffect(ViewsOf(left, fs), Somes(Lefts(calls)))
            && Consistent(right, fs') && ViewsOf(right, fs') == ChainEffect(ViewsOf(right, fs), Somes(Rights(calls)))
            && fs'.Keys == fs.Keys
            && forall f :: f in fs && f !in left && f !in right ==> fs'[f] == fs[f]
  {
    hide Consistent, ViewsOf, CallOps, ChainEffect, ChainOps;
    var results := MixedAppends(rocksdb, calls);
    forall i | 0 <= i < |calls|
      ensures calls[i].Left? ==> Avoids(results[i], right)
      ensures calls[i].Right? ==> Avoids(results[i], left)
      ensures results[i].Ok? ==>
                forall j :: 0 <= j < |results[i].value| ==> results[i].value[j].cf in left.Keys + right.Keys
    {
      match calls[i] {
        case Left(c) => CallStaysInFamily(rocksdb, c);
        case Right(c) => CallStaysInFamily(rocksdb, c);
      }
    }
    ChainMeansEffect(rocksdb, left, fs, Lefts(calls), results);
    ChainMeansEffect(rocksdb, right, fs, Rights(calls), results);
    ApplyOpsFamilies(fs, ChainOps(results).value);
    ChainStaysInFamilies(results, left.Keys + right.Keys);
    forall f | f in fs && f !in left && f !in right ensures ApplyOps(fs, ChainOps(results).value)[f] == fs[f] {
      OtherFamiliesAreKept(fs, ChainOps(results).value, f);
    }
  }
}
