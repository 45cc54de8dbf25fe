// The typed view of one table and its meaning as a map: schemas, and the map operations that the
// byte-level database is proved to implement.
module Tables {
  import opened Wrappers
  import opened KeyEncoding

  // How a database call ended, as chosen by the environment. A failed call changes nothing.
  datatype Outcome = Success | Failure(error: TypedStoreError)

  // The value serialization of a table, the default bincode configuration.
  datatype ValueCodec<!V(!new)> = ValueCodec(ser: V -> StoreResult<Bytes>, de: Bytes -> StoreResult<V>) {
    ghost predicate Lawful() {
      forall v {:trigger ser(v)} :: ser(v).Ok? ==> de(ser(v).value) == Ok(v)
    }

    // The stored bytes of a value that has been stored.
    function Raw(v: V): Bytes {
      match ser(v)
      case Ok(b) => b
      case Err(_) => []
    }
  }

  // ----- Operations on maps -----

  function PutAll<K, V>(table: map<K, V>, keyValues: seq<(K, V)>): map<K, V>
    decreases |keyValues|
  {
    if keyValues == [] then table else PutAll(table[keyValues[0].0 := keyValues[0].1], keyValues[1..])
  }

  function KeysOf<K, V>(keyValues: seq<(K, V)>): (keys: seq<K>)
    ensures |keys| == |keyValues| && forall i :: 0 <= i < |keys| ==> keys[i] == keyValues[i].0
  {
    seq(|keyValues|, i requires 0 <= i < |keyValues| => keyValues[i].0)
  }

  function DropAll<K, V>(table: map<K, V>, keys: seq<K>): map<K, V>
    decreases |keys|
  {
    if keys == [] then table else DropAll(table - {keys[0]}, keys[1..])
  }

  function LookupAll<K, V>(table: map<K, V>, keys: seq<K>): (values: seq<Option<V>>)
    ensures |values| == |keys|
    ensures forall i :: 0 <= i < |keys| ==> values[i] == if keys[i] in table then Some(table[keys[i]]) else None
  {
    seq(|keys|, i requires 0 <= i < |keys| => Lookup(table, keys[i]))
  }

  lemma {:induction false} PutAllKeys<K, V>(table: map<K, V>, kvs: seq<(K, V)>)
    ensures forall k :: k in PutAll(table, kvs) <==> k in table || k in KeysOf(kvs)
    ensures forall k :: k in table && k !in KeysOf(kvs) ==> PutAll(table, kvs)[k] == table[k]
    decreases |kvs|
  {
    if kvs != [] {
      PutAllKeys(table[kvs[0].0 := kvs[0].1], kvs[1..]);
      assert KeysOf(kvs) == [kvs[0].0] + KeysOf(kvs[1..]);
    }
  }

  // Of several pairs with one key, the last one is stored.
  lemma {:induction false} PutAllLastWins<K, V>(table: map<K, V>, kvs: seq<(K, V)>, i: nat)
    requires i < |kvs| && forall j :: i < j < |kvs| ==> kvs[j].0 != kvs[i].0
    ensures Lookup(PutAll(table, kvs), kvs[i].0) == Some(kvs[i].1)
    decreases |kvs|
  {
    if i == 0 {
      PutAllKeys(table[kvs[0].0 := kvs[0].1], kvs[1..]);
    } else {
      PutAllLastWins(table[kvs[0].0 := kvs[0].1], kvs[1..], i - 1);
    }
  }

  lemma {:induction false} PutAllAppends<K, V>(table: map<K, V>, a: seq<(K, V)>, b: seq<(K, V)>)
    ensures PutAll(table, a + b) == PutAll(PutAll(table, a), b)
    decreases |a|
  {
    if a == [] {
      assert a + b == b;
    } else {
      assert (a + b)[1..] == a[1..] + b;
      PutAllAppends(table[a[0].0 := a[0].1], a[1..], b);
    }
  }

  lemma {:induction false} DropAllAppends<K, V>(table: map<K, V>, a: seq<K>, b: seq<K>)
    ensures DropAll(table, a + b) == DropAll(DropAll(table, a), b)
    decreases |a|
  {
    if a == [] {
      assert a + b == b;
    } else {
      assert (a + b)[1..] == a[1..] + b;
      DropAllAppends(table - {a[0]}, a[1..], b);
    }
  }

  lemma PutAllLast<K, V>(table: map<K, V>, kvs: seq<(K, V)>, i: nat)
    requires i < |kvs|
    ensures PutAll(table, kvs[..i + 1]) == PutAll(table, kvs[..i])[kvs[i].0 := kvs[i].1]
  {
    PutAllAppends(table, kvs[..i], [kvs[i]]);
    assert kvs[..i + 1] == kvs[..i] + [kvs[i]];
    assert [kvs[i]][1..] == [];
  }

  lemma DropAllLast<K, V>(table: map<K, V>, keys: seq<K>, i: nat)
    requires i < |keys|
    ensures DropAll(table, keys[..i + 1]) == DropAll(table, keys[..i]) - {keys[i]}
  {
    DropAllAppends(table, keys[..i], [keys[i]]);
    assert keys[..i + 1] == keys[..i] + [keys[i]];
    assert [keys[i]][1..] == [];
  }

  lemma {:induction false} DropAllKeys<K, V>(table: map<K, V>, keys: seq<K>)
    ensures DropAll(table, keys) == map k | k in table && k !in keys :: table[k]
    decreases |keys|
  {
    if keys != [] {
      DropAllKeys(table - {keys[0]}, keys[1..]);
      assert keys == [keys[0]] + keys[1..];
    }
  }

  // ----- Schemas -----

  type Table = map<Bytes, Bytes>

  // The key serialization of a typed table, and the order it gives to keys.
  datatype KeyCodec<!K(!new)> = KeyCodec(ser: K -> StoreResult<Bytes>, de: Bytes -> Option<K>, less: (K, K) -> bool) {
    ghost predicate Lawful() {
      forall k {:trigger ser(k)} :: ser(k).Ok? ==> de(ser(k).value) == Some(k)
    }

    // The bytes of keys sort as the keys do.
    ghost predicate Ordered() {
      forall a, b {:trigger less(a, b)} :: ser(a).Ok? && ser(b).Ok? ==>
        (LexLess(ser(a).value, ser(b).value) <==> less(a, b))
    }
  }

  // A typed table: its key and value serializations.
  datatype Schema<!K(!new), !V(!new)> = Schema(key: KeyCodec<K>, value: ValueCodec<V>) {
    ghost predicate Lawful() {
      key.Lawful() && value.Lawful()
    }

    // An entry that was written through this schema.
    predicate Readable(b: Bytes, raw: Bytes) {
      && key.de(b).Some? && key.ser(key.de(b).value) == Ok(b)
      && value.de(raw).Ok? && value.ser(value.de(raw).value) == Ok(raw)
    }

    ghost predicate WellFormed(t: Table) {
      forall b :: b in t ==> Readable(b, t[b])
    }

    function Decode(b: Bytes, raw: Bytes): (K, V)
      requires Readable(b, raw)
    {
      (key.de(b).value, value.de(raw).value)
    }

    // The typed contents of a table.
    ghost function View(t: Table): map<K, V>
      requires WellFormed(t)
    {
      map b | b in t :: Decode(b, t[b]).0 := Decode(b, t[b]).1
    }

    ghost predicate EncodedIn(k: K, bs: set<Bytes>) {
      key.ser(k).Ok? && key.ser(k).value in bs
    }

    // A key is in the view when its encoding is in the table.
    lemma ViewLookup(t: Table, k: K)
      requires Lawful() && WellFormed(t)
      ensures k in View(t) <==> EncodedIn(k, t.Keys)
      ensures k in View(t) ==>
                var raw := t[key.ser(k).value];
                value.de(raw) == Ok(View(t)[k]) && raw == value.Raw(View(t)[k])
    {
    }

    // A map with the table's keys and values is its view.
    lemma ViewIs(t: Table, m: map<K, V>)
      requires Lawful() && WellFormed(t)
      requires forall k :: k in m <==> EncodedIn(k, t.Keys)
      requires forall k :: k in m ==> EncodedIn(k, t.Keys) && value.de(t[key.ser(k).value]) == Ok(m[k])
      ensures View(t) == m
    {
      var v := View(t);
      forall k ensures k in v <==> k in m
               ensures k in v ==> v[k] == m[k] {
        ViewLookup(t, k);
      }
    }

    lemma ViewPut(t: Table, k: K, v: V)
      requires Lawful() && WellFormed(t) && key.ser(k).Ok? && value.ser(v).Ok?
      ensures var t' := t[key.ser(k).value := value.ser(v).value];
              WellFormed(t') && View(t') == View(t)[k := v]
    {
      var m := View(t)[k := v];
      var t' := t[key.ser(k).value := value.ser(v).value];
      forall k' ensures k' in m <==> EncodedIn(k', t'.Keys)
                ensures k' in m ==> value.de(t'[key.ser(k').value]) == Ok(m[k']) {
        ViewLookup(t, k');
      }
      ViewIs(t', m);
    }

    lemma ViewDrop(t: Table, gone: set<Bytes>, m: map<K, V>)
      requires Lawful() && WellFormed(t)
      requires forall k :: k in m <==> k in View(t) && !EncodedIn(k, gone)
      requires forall k :: k in m ==> m[k] == View(t)[k]
      ensures WellFormed(t - gone) && View(t - gone) == m
    {
      forall k ensures k in m <==> EncodedIn(k, (t - gone).Keys)
               ensures k in m ==> value.de((t - gone)[key.ser(k).value]) == Ok(m[k]) {
        ViewLookup(t, k);
      }
      ViewIs(t - gone, m);
    }

    lemma ViewRemove(t: Table, k: K)
      requires Lawful() && WellFormed(t) && key.ser(k).Ok?
      ensures var t' := t - {key.ser(k).value};
              WellFormed(t') && View(t') == View(t) - {k}
    {
      var gone, view := {key.ser(k).value}, View(t);
      forall k' | k' in view ensures EncodedIn(k', gone) <==> k' == k {
        ViewLookup(t, k');
      }
      ViewDrop(t, gone, view - {k});
    }
  }
}
