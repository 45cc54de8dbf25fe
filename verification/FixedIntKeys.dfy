// The key codec that the typed store uses, for every key type, as an instance of the interface that
// the typed tables are proved against.
module FixedIntKeys {
  import opened Wrappers
  import opened KeyEncoding
  import opened Tables
  import opened Rocks
  import opened TypedMap

  function SerOf(t: KeyType): Key -> StoreResult<Bytes> {
    k => if HasType(t, k) then BeFixIntSer(t, k) else Err(SerializationError("type"))
  }

  function LessOf(t: KeyType): (Key, Key) -> bool {
    (a, b) => Storable(t, a) && Storable(t, b) && KeyLess(t, a, b)
  }

  function BeFixIntCodec(t: KeyType): KeyCodec<Key> {
    KeyCodec(SerOf(t), b => Deserialize(t, b), LessOf(t))
  }

  // Decoding inverts encoding, and byte order is key order, for every key type.
  lemma BeFixIntCodecIsLawful(t: KeyType)
    ensures BeFixIntCodec(t).Lawful() && BeFixIntCodec(t).Ordered()
  {
    var c := BeFixIntCodec(t);
    forall k | c.ser(k).Ok? ensures c.de(c.ser(k).value) == Some(k) {
      RoundTrip(t, k);
    }
    forall a, b | c.ser(a).Ok? && c.ser(b).Ok?
      ensures LexLess(c.ser(a).value, c.ser(b).value) <==> c.less(a, b)
    {
      ByteOrderIsKeyOrder(t, a, b);
    }
  }

  lemma NumberKeys(width: nat, a: nat, b: nat)
    ensures BeFixIntCodec(Unsigned(width)).ser(Number(a)).Ok? <==> a < Pow256(width)
    ensures a < Pow256(width) && b < Pow256(width) ==>
              (BeFixIntCodec(Unsigned(width)).less(Number(a), Number(b)) <==> a < b)
  {
    if a < Pow256(width) && b < Pow256(width) {
      assert Storable(Unsigned(width), Number(a)) && Storable(Unsigned(width), Number(b));
      assert KeyLess(Unsigned(width), Number(a), Number(b)) <==> a < b;
    }
  }

  // Over unsigned keys a range delete removes exactly the numbers from <= n < to.
  lemma NumericRangeDelete<V(!new)>(width: nat, values: ValueCodec<V>, cf: string, t: Table, from: nat, to: nat, n: nat)
    requires from < Pow256(width) && to < Pow256(width)
    requires values.Lawful() && Schema(BeFixIntCodec(Unsigned(width)), values).WellFormed(t)
    ensures var s := Schema(BeFixIntCodec(Unsigned(width)), values);
            var ops := RangeOps(cf, s, Number(from), Number(to));
            && ops.Ok? && s.WellFormed(ApplyAllToTable(t, ops.value))
            && Lookup(s.View(ApplyAllToTable(t, ops.value)), Number(n))
               == if from <= n < to then None else Lookup(s.View(t), Number(n))
  {
    hide BeFixIntCodec, Schema.View, Schema.WellFormed, KeyCodec.Lawful, KeyCodec.Ordered, ValueCodec.Lawful,
         ApplyAllToTable;
    var s := Schema(BeFixIntCodec(Unsigned(width)), values);
    BeFixIntCodecIsLawful(Unsigned(width));
    NumberKeys(width, from, to);
    NumberKeys(width, to, from);
    NumberKeys(width, n, from);
    NumberKeys(width, n, to);
    RangeOpsMeanDropRange(s, cf, t, Number(from), Number(to));
    s.ViewLookup(t, Number(n));
  }

  // The same through a batch that is written: no other key and no other column family changes, and
  // nothing changes when the write fails.
  method DeleteNumericRange<V(!new)>(
      db: DBMap<Key, V>, width: nat, from: nat, to: nat, io: Outcome) returns (r: StoreResult<()>)
    requires db.Valid() && db.schema.key == BeFixIntCodec(Unsigned(width))
    requires from < Pow256(width) && to < Pow256(width)
    modifies db.rocksdb
    ensures db.Valid() && (r.Ok? <==> io.Success?)
    ensures forall n: nat ::
              Lookup(db.View(), Number(n)) ==
              if r.Ok? && from <= n < to then None else Lookup(old(db.View()), Number(n))
    ensures db.rocksdb.families == old(db.rocksdb.families)[db.cf := db.rocksdb.families[db.cf]]
  {
    hide BeFixIntCodec, Schema.View, Schema.WellFormed, KeyCodec.Lawful, KeyCodec.Ordered, ValueCodec.Lawful,
         ApplyAllToTable;
    ghost var t := db.rocksdb.families[db.cf];
    ghost var s := Schema(BeFixIntCodec(Unsigned(width)), db.schema.value);
    assert db.schema == s;
    forall n: nat
      ensures var ops := RangeOps(db.cf, s, Number(from), Number(to));
              && ops.Ok? && s.WellFormed(ApplyAllToTable(t, ops.value))
              && Lookup(s.View(ApplyAllToTable(t, ops.value)), Number(n))
                 == if from <= n < to then None else Lookup(s.View(t), Number(n))
    {
      NumericRangeDelete(width, db.schema.value, db.cf, t, from, to, n);
    }
    NumericRangeDelete(width, db.schema.value, db.cf, t, from, to, 0);
    var b := db.Batch();
    r := b.DeleteRangeOf(db, Number(from), Number(to));
    ghost var ops := RangeOps(db.cf, s, Number(from), Number(to)).value;
    assert r.Ok? && b.batch == ops;
    ApplyOpsToOneFamily(db.rocksdb.families, ops, db.cf);
    r := b.Write(io);
  }
}
