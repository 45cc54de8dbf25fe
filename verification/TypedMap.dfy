// DBMap, the typed map over one column family, and DBBatch, the write batch that may span several.
module TypedMap {
  import opened Wrappers
  import opened KeyEncoding
  import opened Tables
  import opened Rocks
  import opened Cursor

  // ----- What the calls of a batch append to it -----

  // The puts for a list of pairs, or the first serialization error in the list.
  function PutOps<K(!new), V(!new)>(cf: string, s: Schema<K, V>, pairs: seq<(K, V)>): StoreResult<seq<WriteOp>>
  {
    if pairs == [] then Ok([]) else
      match s.key.ser(pairs[0].0)
      case Err(e) => Err(e)
      case Ok(k) =>
        match s.value.ser(pairs[0].1)
        case Err(e) => Err(e)
        case Ok(v) =>
          match PutOps(cf, s, pairs[1..])
          case Err(e) => Err(e)
          case Ok(ops) => Ok([Put(cf, k, v)] + ops)
  }

  function DeleteOps<K(!new), V(!new)>(cf: string, s: Schema<K, V>, keys: seq<K>): StoreResult<seq<WriteOp>>
  {
    if keys == [] then Ok([]) else
      match s.key.ser(keys[0])
      case Err(e) => Err(e)
      case Ok(k) =>
        match DeleteOps(cf, s, keys[1..])
        case Err(e) => Err(e)
        case Ok(ops) => Ok([DeleteKey(cf, k)] + ops)
  }

  function RangeOps<K(!new), V(!new)>(cf: string, s: Schema<K, V>, from: K, to: K): StoreResult<seq<WriteOp>>
  {
    match s.key.ser(from)
    case Err(e) => Err(e)
    case Ok(f) =>
      match s.key.ser(to)
      case Err(e) => Err(e)
      case Ok(t) => Ok([DeleteRange(cf, f, t)])
  }

  // How a call ends that has serialized its operations and then writes them.
  function Ended(ops: StoreResult<seq<WriteOp>>, io: Outcome): StoreResult<()> {
    match ops
    case Err(e) => Err(e)
    case Ok(_) =>
      match io
      case Success => Ok(())
      case Failure(e) => Err(e)
  }

  // ----- What reads return -----

  ghost function GetResult<K(!new), V(!new)>(
      s: Schema<K, V>, view: map<K, V>, key: K, io: Outcome): StoreResult<Option<V>>
  {
    if s.key.ser(key).Err? then Err(s.key.ser(key).error)
    else if io.Failure? then Err(io.error)
    else Ok(Lookup(view, key))
  }

  ghost function GetRawResult<K(!new), V(!new)>(
      s: Schema<K, V>, view: map<K, V>, key: K, io: Outcome): StoreResult<Option<Bytes>>
  {
    match GetResult(s, view, key, io)
    case Err(e) => Err(e)
    case Ok(None) => Ok(None)
    case Ok(Some(v)) => Ok(Some(s.value.Raw(v)))
  }

  // The first key that cannot be serialized, and the first read that fails.
  ghost function FirstBadKey<K(!new), V(!new)>(s: Schema<K, V>, keys: seq<K>): (n: nat)
    ensures n <= |keys|
    ensures n < |keys| ==> s.key.ser(keys[n]).Err?
    ensures forall j :: 0 <= j < n ==> s.key.ser(keys[j]).Ok?
  {
    if keys == [] || s.key.ser(keys[0]).Err? then 0 else 1 + FirstBadKey(s, keys[1..])
  }

  ghost function FirstFailure(ios: seq<Outcome>): (n: nat)
    ensures n <= |ios|
    ensures n < |ios| ==> ios[n].Failure?
    ensures forall j :: 0 <= j < n ==> ios[j].Success?
  {
    if ios == [] || ios[0].Failure? then 0 else 1 + FirstFailure(ios[1..])
  }

  // All keys are serialized before any is read.
  ghost function BatchedGets<K(!new), V(!new)>(
      s: Schema<K, V>, view: map<K, V>, keys: seq<K>, ios: seq<Outcome>): StoreResult<seq<Option<V>>>
    requires |ios| == |keys|
  {
    var k, i := FirstBadKey(s, keys), FirstFailure(ios);
    if k < |keys| then Err(s.key.ser(keys[k]).error)
    else if i < |ios| then Err(ios[i].error)
    else Ok(LookupAll(view, keys))
  }

  // ----- DBMap -----

  class DBMap<K(==,!new), V(!new)> {
    const rocksdb: RocksDB
    const cf: string
    const schema: Schema<K, V>

    ghost predicate Valid()
      reads rocksdb
    {
      cf in rocksdb.families && schema.Lawful() && schema.key.Ordered() && schema.WellFormed(rocksdb.families[cf])
    }

    // The map that this table represents.
    ghost function View(): map<K, V>
      reads rocksdb
      requires Valid()
    {
      schema.View(rocksdb.families[cf])
    }

    constructor (rocksdb: RocksDB, cf: string, schema: Schema<K, V>)
      requires cf in rocksdb.families && schema.Lawful() && schema.key.Ordered()
      requires schema.WellFormed(rocksdb.families[cf])
      ensures Valid() && this.rocksdb == rocksdb && this.cf == cf && this.schema == schema
    {
      this.rocksdb := rocksdb;
      this.cf := cf;
      this.schema := schema;
    }

    method GetRawBytes(key: K, io: Outcome) returns (r: StoreResult<Option<Bytes>>)
      requires Valid()
      ensures r == GetRawResult(schema, View(), key, io)
    {
      var keyBuf := schema.key.ser(key);
      if keyBuf.Err? {
        return Err(keyBuf.error);
      }
      if io.Failure? {
        return Err(io.error);
      }
      schema.ViewLookup(rocksdb.families[cf], key);
      r := Ok(Lookup(rocksdb.families[cf], keyBuf.value));
    }

    method Get(key: K, io: Outcome) returns (r: StoreResult<Option<V>>)
      requires Valid()
      ensures r == GetResult(schema, View(), key, io)
      ensures r.Ok? ==> r.value == if key in View() then Some(View()[key]) else None
    {
      var data := GetRawBytes(key, io);
      if data.Err? {
        return Err(data.error);
      }
      if data.value.None? {
        return Ok(None);
      }
      schema.ViewLookup(rocksdb.families[cf], key);
      match schema.value.de(data.value.value) {
        case Err(e) => r := Err(e);
        case Ok(value) => r := Ok(Some(value));
      }
    }

    method Insert(key: K, value: V, io: Outcome) returns (r: StoreResult<()>)
      requires Valid()
      modifies rocksdb
      ensures Valid()
      ensures r == Ended(PutOps(cf, schema, [(key, value)]), io)
      ensures View() == if r.Ok? then old(View())[key := value] else old(View())
      ensures rocksdb.families == old(rocksdb.families)[cf := rocksdb.families[cf]]
    {
      var keyBuf := schema.key.ser(key);
      if keyBuf.Err? {
        return Err(keyBuf.error);
      }
      var valueBuf := schema.value.ser(value);
      if valueBuf.Err? {
        return Err(valueBuf.error);
      }
      schema.ViewPut(rocksdb.families[cf], key, value);
      r := rocksdb.Write([Put(cf, keyBuf.value, valueBuf.value)], io);
      assert [Put(cf, keyBuf.value, valueBuf.value)][1..] == [];
    }

    method Remove(key: K, io: Outcome) returns (r: StoreResult<()>)
      requires Valid()
      modifies rocksdb
      ensures Valid()
      ensures r == Ended(DeleteOps(cf, schema, [key]), io)
      ensures View() == if r.Ok? then old(View()) - {key} else old(View())
      ensures rocksdb.families == old(rocksdb.families)[cf := rocksdb.families[cf]]
    {
      var keyBuf := schema.key.ser(key);
      if keyBuf.Err? {
        return Err(keyBuf.error);
      }
      schema.ViewRemove(rocksdb.families[cf], key);
      r := rocksdb.Write([DeleteKey(cf, keyBuf.value)], io);
      assert [DeleteKey(cf, keyBuf.value)][1..] == [];
    }

    method Iterate() returns (it: Iter<K, V>)
      requires Valid()
      ensures fresh(it) && fresh(it.dbIter) && it.Valid() && it.schema == schema && it.direction.Forward?
      ensures it.Pending() == it.All() && IsListingOf(schema.key, it.All(), View())
    {
      it := new Iter(schema, rocksdb.families[cf]);
      ListingRepresentsView(schema, rocksdb.families[cf]);
    }

    method Batch() returns (b: DBBatch)
      ensures fresh(b) && b.rocksdb == rocksdb && b.batch == [] && !b.spent
    {
      b := new DBBatch(rocksdb);
    }

    // One atomic batch of puts.
    method MultiInsert(pairs: seq<(K, V)>, io: Outcome) returns (r: StoreResult<()>)
      requires Valid()
      modifies rocksdb
      ensures Valid()
      ensures r == Ended(PutOps(cf, schema, pairs), io)
      ensures View() == if r.Ok? then PutAll(old(View()), pairs) else old(View())
      ensures rocksdb.families == old(rocksdb.families)[cf := rocksdb.families[cf]]
    {
      hide Schema.View, Schema.WellFormed, Schema.Lawful;
      var b := Batch();
      r := b.InsertBatch(this, pairs);
      if r.Ok? {
        PutOpsMeanPutAll(schema, cf, rocksdb.families[cf], pairs);
        assert b.batch == PutOps(cf, schema, pairs).value;
        ApplyOpsToOneFamily(rocksdb.families, b.batch, cf);
        r := b.Write(io);
      }
    }

    // One atomic batch of deletes.
    method MultiRemove(keys: seq<K>, io: Outcome) returns (r: StoreResult<()>)
      requires Valid()
      modifies rocksdb
      ensures Valid()
      ensures r == Ended(DeleteOps(cf, schema, keys), io)
      ensures View() == if r.Ok? then DropAll(old(View()), keys) else old(View())
      ensures rocksdb.families == old(rocksdb.families)[cf := rocksdb.families[cf]]
    {
      hide Schema.View, Schema.WellFormed, Schema.Lawful;
      var b := Batch();
      r := b.DeleteBatch(this, keys);
      if r.Ok? {
        DeleteOpsMeanDropAll(schema, cf, rocksdb.families[cf], keys);
        assert b.batch == DeleteOps(cf, schema, keys).value;
        ApplyOpsToOneFamily(rocksdb.families, b.batch, cf);
        r := b.Write(io);
      }
    }

    // Serializes every key first, then reads them all; each read may fail on its own.
    method MultiGet(keys: seq<K>, ios: seq<Outcome>) returns (r: StoreResult<seq<Option<V>>>)
      requires Valid() && |ios| == |keys|
      ensures r == BatchedGets(schema, View(), keys, ios)
    {
      var keysBytes: seq<Bytes> := [];
      for i := 0 to |keys|
        invariant |keysBytes| == i
        invariant forall j :: 0 <= j < i ==> schema.key.ser(keys[j]) == Ok(keysBytes[j])
      {
        var keyBuf := schema.key.ser(keys[i]);
        if keyBuf.Err? {
          return Err(keyBuf.error);
        }
        keysBytes := keysBytes + [keyBuf.value];
      }
      r := ParseValues(schema, rocksdb.families[cf], keys, keysBytes, ios);
    }
  }

  // The result of a multi-read: the values in order, or the first error.
  method ParseValues<K(==,!new), V(!new)>(
      s: Schema<K, V>, table: Table, ghost keys: seq<K>, keysBytes: seq<Bytes>, ios: seq<Outcome>)
    returns (r: StoreResult<seq<Option<V>>>)
    requires s.Lawful() && s.WellFormed(table)
    requires |keysBytes| == |ios| == |keys| && forall i :: 0 <= i < |keys| ==> s.key.ser(keys[i]) == Ok(keysBytes[i])
    ensures r == BatchedGets(s, s.View(table), keys, ios)
  {
    hide Schema.View, Schema.WellFormed;
    var values: seq<Option<V>> := [];
    ghost var view := s.View(table);
    assert FirstBadKey(s, keys) == |keys|;
    for i := 0 to |keysBytes|
      invariant |values| == i
      invariant forall j :: 0 <= j < i ==> ios[j].Success? && values[j] == Lookup(view, keys[j])
    {
      if ios[i].Failure? {
        assert FirstFailure(ios) == i;
        return Err(ios[i].error);
      }
      s.ViewLookup(table, keys[i]);
      var data := Lookup(table, keysBytes[i]);
      match data {
        case None =>
          values := values + [None];
        case Some(bytes) =>
          match s.value.de(bytes) {
            case Err(e) => return Err(e);
            case Ok(value) => values := values + [Some(value)];
          }
      }
    }
    assert FirstFailure(ios) == |ios| && values == LookupAll(view, keys);
    r := Ok(values);
  }

  // ----- DBBatch -----

  // A batch is consumed by write and by a call that fails: neither can be followed by another use.
  class DBBatch {
    const rocksdb: RocksDB
    var batch: seq<WriteOp>
    var spent: bool

    constructor (rocksdb: RocksDB)
      ensures this.rocksdb == rocksdb && batch == [] && !spent
    {
      this.rocksdb := rocksdb;
      batch := [];
      spent := false;
    }

    method Write(io: Outcome) returns (r: StoreResult<()>)
      requires !spent
      modifies this, rocksdb
      ensures spent && r == if io.Success? then Ok(()) else Err(io.error)
      ensures rocksdb.families ==
              if io.Success? then ApplyOps(old(rocksdb.families), old(batch)) else old(rocksdb.families)
    {
      spent := true;
      r := rocksdb.Write(batch, io);
    }

    method InsertBatch<K(==,!new), V(!new)>(db: DBMap<K, V>, newVals: seq<(K, V)>) returns (r: StoreResult<()>)
      requires !spent
      modifies this
      ensures spent <==> r.Err?
      ensures db.rocksdb != rocksdb ==> r == Err(CrossDBBatch)
      ensures db.rocksdb == rocksdb ==>
                match PutOps(db.cf, db.schema, newVals)
                case Ok(ops) => r.Ok? && batch == old(batch) + ops
                case Err(e) => r == Err(e)
    {
      if db.rocksdb != rocksdb {
        spent := true;
        return Err(CrossDBBatch);
      }
      for i := 0 to |newVals|
        invariant !spent
        invariant match PutOps(db.cf, db.schema, newVals[i..])
                  case Ok(ops) =>
                    PutOps(db.cf, db.schema, newVals).Ok? &&
                    batch + ops == old(batch) + PutOps(db.cf, db.schema, newVals).value
                  case Err(e) => PutOps(db.cf, db.schema, newVals) == Err(e)
      {
        assert newVals[i..][1..] == newVals[i + 1..];
        var kBuf := db.schema.key.ser(newVals[i].0);
        if kBuf.Err? {
          spent := true;
          return Err(kBuf.error);
        }
        var vBuf := db.schema.value.ser(newVals[i].1);
        if vBuf.Err? {
          spent := true;
          return Err(vBuf.error);
        }
        batch := batch + [Put(db.cf, kBuf.value, vBuf.value)];
      }
      r := Ok(());
    }

    method DeleteBatch<K(==,!new), V(!new)>(db: DBMap<K, V>, purged: seq<K>) returns (r: StoreResult<()>)
      requires !spent
      modifies this
      ensures spent <==> r.Err?
      ensures db.rocksdb != rocksdb ==> r == Err(CrossDBBatch)
      ensures db.rocksdb == rocksdb ==>
                match DeleteOps(db.cf, db.schema, purged)
                case Ok(ops) => r.Ok? && batch == old(batch) + ops
                case Err(e) => r == Err(e)
    {
      if db.rocksdb != rocksdb {
        spent := true;
        return Err(CrossDBBatch);
      }
      for i := 0 to |purged|
        invariant !spent
        invariant match DeleteOps(db.cf, db.schema, purged[i..])
                  case Ok(ops) =>
                    DeleteOps(db.cf, db.schema, purged).Ok? &&
                    batch + ops == old(batch) + DeleteOps(db.cf, db.schema, purged).value
                  case Err(e) => DeleteOps(db.cf, db.schema, purged) == Err(e)
      {
        assert purged[i..][1..] == purged[i + 1..];
        var kBuf := db.schema.key.ser(purged[i]);
        if kBuf.Err? {
          spent := true;
          return Err(kBuf.error);
        }
        batch := batch + [DeleteKey(db.cf, kBuf.value)];
      }
      r := Ok(());
    }

    method DeleteRangeOf<K(==,!new), V(!new)>(db: DBMap<K, V>, from: K, to: K) returns (r: StoreResult<()>)
      requires !spent
      modifies this
      ensures spent <==> r.Err?
      ensures db.rocksdb != rocksdb ==> r == Err(CrossDBBatch)
      ensures db.rocksdb == rocksdb ==>
                match RangeOps(db.cf, db.schema, from, to)
                case Ok(ops) => r.Ok? && batch == old(batch) + ops
                case Err(e) => r == Err(e)
    {
      if db.rocksdb != rocksdb {
        spent := true;
        return Err(CrossDBBatch);
      }
      var fromBuf := db.schema.key.ser(from);
      if fromBuf.Err? {
        spent := true;
        return Err(fromBuf.error);
      }
      var toBuf := db.schema.key.ser(to);
      if toBuf.Err? {
        spent := true;
        return Err(toBuf.error);
      }
      batch := batch + [DeleteRange(db.cf, fromBuf.value, toBuf.value)];
      r := Ok(());
    }
  }

  // ----- Byte operations mean map operations -----

  lemma {:induction false} PutOpsMeanPutAll<K(!new), V(!new)>(s: Schema<K, V>, cf: string, t: Table, pairs: seq<(K, V)>)
    requires s.Lawful() && s.WellFormed(t) && PutOps(cf, s, pairs).Ok?
    ensures var ops := PutOps(cf, s, pairs).value;
            && (forall i :: 0 <= i < |ops| ==> ops[i].cf == cf)
            && s.WellFormed(ApplyAllToTable(t, ops))
            && s.View(ApplyAllToTable(t, ops)) == PutAll(s.View(t), pairs)
    decreases |pairs|
  {
    hide Schema.View, Schema.WellFormed, Schema.Lawful;
    if pairs != [] {
      var ops := PutOps(cf, s, pairs).value;
      assert ops[1..] == PutOps(cf, s, pairs[1..]).value;
      s.ViewPut(t, pairs[0].0, pairs[0].1);
      PutOpsMeanPutAll(s, cf, ApplyToTable(t, ops[0]), pairs[1..]);
    }
  }

  lemma {:induction false} DeleteOpsSucceed<K(!new), V(!new)>(cf: string, s: Schema<K, V>, keys: seq<K>)
    ensures DeleteOps(cf, s, keys).Ok? <==> forall i :: 0 <= i < |keys| ==> s.key.ser(keys[i]).Ok?
  {
    if keys != [] {
      DeleteOpsSucceed(cf, s, keys[1..]);
      assert keys == [keys[0]] + keys[1..];
    }
  }

  lemma {:induction false} PutOpsSucceed<K(!new), V(!new)>(cf: string, s: Schema<K, V>, pairs: seq<(K, V)>)
    ensures PutOps(cf, s, pairs).Ok? <==>
              forall i :: 0 <= i < |pairs| ==> s.key.ser(pairs[i].0).Ok? && s.value.ser(pairs[i].1).Ok?
  {
    if pairs != [] {
      PutOpsSucceed(cf, s, pairs[1..]);
      assert pairs == [pairs[0]] + pairs[1..];
    }
  }

  lemma {:induction false} DeleteOpsMeanDropAll<K(!new), V(!new)>(s: Schema<K, V>, cf: string, t: Table, keys: seq<K>)
    requires s.Lawful() && s.WellFormed(t) && DeleteOps(cf, s, keys).Ok?
    ensures var ops := DeleteOps(cf, s, keys).value;
            && (forall i :: 0 <= i < |ops| ==> ops[i].cf == cf)
            && s.WellFormed(ApplyAllToTable(t, ops))
            && s.View(ApplyAllToTable(t, ops)) == DropAll(s.View(t), keys)
    decreases |keys|
  {
    hide Schema.View, Schema.WellFormed, Schema.Lawful;
    if keys != [] {
      var ops := DeleteOps(cf, s, keys).value;
      assert ops[1..] == DeleteOps(cf, s, keys[1..]).value;
      s.ViewRemove(t, keys[0]);
      DeleteOpsMeanDropAll(s, cf, ApplyToTable(t, ops[0]), keys[1..]);
    }
  }

  // The map without the keys from <= k < to, in the order of keys.
  ghost function DropRange<K(!new), V>(c: KeyCodec<K>, m: map<K, V>, from: K, to: K): map<K, V> {
    map k | k in m && (c.less(k, from) || !c.less(k, to)) :: m[k]
  }

  lemma EncodedInRange<K(!new), V(!new)>(s: Schema<K, V>, t: Table, from: K, to: K, k: K)
    requires s.key.Ordered() && s.key.ser(from).Ok? && s.key.ser(to).Ok? && s.EncodedIn(k, t.Keys)
    ensures s.EncodedIn(k, KeysInRange(t, s.key.ser(from).value, s.key.ser(to).value))
            <==> !s.key.less(k, from) && s.key.less(k, to)
  {
  }

  lemma ViewDropRange<K(!new), V(!new)>(s: Schema<K, V>, t: Table, from: K, to: K)
    requires s.Lawful() && s.key.Ordered() && s.WellFormed(t) && s.key.ser(from).Ok? && s.key.ser(to).Ok?
    ensures var t' := t - KeysInRange(t, s.key.ser(from).value, s.key.ser(to).value);
            s.WellFormed(t') && s.View(t') == DropRange(s.key, s.View(t), from, to)
  {
    var gone := KeysInRange(t, s.key.ser(from).value, s.key.ser(to).value);
    var view := s.View(t);
    forall k | k in view ensures s.EncodedIn(k, gone) <==> !s.key.less(k, from) && s.key.less(k, to) {
      s.ViewLookup(t, k);
      EncodedInRange(s, t, from, to, k);
    }
    s.ViewDrop(t, gone, DropRange(s.key, view, from, to));
  }

  // A range delete of encoded keys removes exactly the keys of the typed range.
  lemma RangeOpsMeanDropRange<K(!new), V(!new)>(s: Schema<K, V>, cf: string, t: Table, from: K, to: K)
    requires s.Lawful() && s.key.Ordered() && s.WellFormed(t) && RangeOps(cf, s, from, to).Ok?
    ensures var ops := RangeOps(cf, s, from, to).value;
            && (forall i :: 0 <= i < |ops| ==> ops[i].cf == cf)
            && s.WellFormed(ApplyAllToTable(t, ops))
            && s.View(ApplyAllToTable(t, ops)) == DropRange(s.key, s.View(t), from, to)
  {
    ViewDropRange(s, t, from, to);
    var ops := RangeOps(cf, s, from, to).value;
    assert ApplyAllToTable(t, ops) == ApplyToTable(t, ops[0]) by { assert ops[1..] == []; }
  }

  // ----- Listings -----

  // Every entry of the map once, in strictly increasing key order.
  ghost predicate IsListingOf<K(!new), V(!new)>(c: KeyCodec<K>, all: seq<(K, V)>, m: map<K, V>) {
    && KeysStorable(c, all) && StrictlyIncreasing(c, all)
    && |all| == |m|
    && forall k, v :: (k, v) in all <==> k in m && m[k] == v
  }

  lemma ListingIsReadable<K(!new), V(!new)>(s: Schema<K, V>, t: Table)
    requires s.WellFormed(t)
    ensures AllReadable(s, Listing(t))
  {
    var entries := Listing(t);
    ListingIsSortedAndExact(t);
    forall i | 0 <= i < |entries| ensures s.Readable(entries[i].0, entries[i].1) {
      assert entries[i] in entries;
    }
  }

  lemma ListedIsInView<K(!new), V(!new)>(s: Schema<K, V>, t: Table, k: K, v: V)
    requires s.Lawful() && s.WellFormed(t)
    ensures AllReadable(s, Listing(t))
    ensures (k, v) in DecodeAll(s, Listing(t)) <==> k in s.View(t) && s.View(t)[k] == v
  {
    var entries := Listing(t);
    ListingIsReadable(s, t);
    ListingIsSortedAndExact(t);
    var all := DecodeAll(s, entries);
    s.ViewLookup(t, k);
    if (k, v) in all {
      var i :| 0 <= i < |all| && all[i] == (k, v);
      assert entries[i] in entries;
    }
    if k in s.View(t) && s.View(t)[k] == v {
      var b := s.key.ser(k).value;
      assert (b, t[b]) in entries;
      var i :| 0 <= i < |entries| && entries[i] == (b, t[b]);
      assert all[i] == (k, v);
    }
  }

  lemma ListingRepresentsView<K(!new), V(!new)>(s: Schema<K, V>, t: Table)
    requires s.Lawful() && s.key.Ordered() && s.WellFormed(t)
    ensures AllReadable(s, Listing(t)) && IsListingOf(s.key, DecodeAll(s, Listing(t)), s.View(t))
  {
    ListingIsReadable(s, t);
    ListingIsSortedAndExact(t);
    DecodedIsIncreasing(s, Listing(t));
    ViewSize(s, t);
    var all, view := DecodeAll(s, Listing(t)), s.View(t);
    forall k, v ensures (k, v) in all <==> k in view && view[k] == v {
      ListedIsInView(s, t, k, v);
    }
  }

  lemma SizeWithout<K, V>(m: map<K, V>, k: K)
    requires k in m
    ensures |m - {k}| == |m| - 1
  {
    assert m.Keys == (m - {k}).Keys + {k};
  }

  lemma {:induction false} ViewSize<K(!new), V(!new)>(s: Schema<K, V>, t: Table)
    requires s.Lawful() && s.WellFormed(t)
    ensures |s.View(t)| == |t|
    decreases |t|
  {
    if t != map[] {
      var b :| b in t;
      var k := s.key.de(b).value;
      s.ViewLookup(t, k);
      s.ViewRemove(t, k);
      SizeWithout(t, b);
      SizeWithout(s.View(t), k);
      ViewSize(s, t - {b});
    }
  }
}
