// The part of RocksDB that the typed store relies on: column families as byte maps, atomic write
// batches, and a sorted listing of a column family.
module Rocks {
  import opened Wrappers
  import opened KeyEncoding
  import opened Tables

  type Families = map<string, Table>

  datatype WriteOp =
    | Put(cf: string, key: Bytes, value: Bytes)
    | DeleteKey(cf: string, key: Bytes)
    | DeleteRange(cf: string, from: Bytes, to: Bytes)
  {
    // Whether the operation decides what key k of family f holds.
    predicate Covers(f: string, k: Bytes) {
      f == cf &&
      match this
      case Put(_, key, _) => k == key
      case DeleteKey(_, key) => k == key
      case DeleteRange(_, from, to) => InRange(k, from, to)
    }
  }

  predicate InRange(k: Bytes, from: Bytes, to: Bytes) {
    !LexLess(k, from) && LexLess(k, to)
  }

  function KeysInRange(t: Table, from: Bytes, to: Bytes): set<Bytes> {
    set k | k in t && InRange(k, from, to)
  }

  function ApplyToTable(t: Table, op: WriteOp): Table {
    match op
    case Put(_, k, v) => t[k := v]
    case DeleteKey(_, k) => t - {k}
    case DeleteRange(_, from, to) => t - KeysInRange(t, from, to)
  }

  function ApplyOp(fs: Families, op: WriteOp): Families {
    if op.cf in fs then fs[op.cf := ApplyToTable(fs[op.cf], op)] else fs
  }

  // A batch is applied in the order in which it was built.
  function ApplyOps(fs: Families, ops: seq<WriteOp>): Families
    decreases |ops|
  {
    if ops == [] then fs else ApplyOps(ApplyOp(fs, ops[0]), ops[1..])
  }

  function ApplyAllToTable(t: Table, ops: seq<WriteOp>): Table
    decreases |ops|
  {
    if ops == [] then t else ApplyAllToTable(ApplyToTable(t, ops[0]), ops[1..])
  }

  class RocksDB {
    var families: Families

    constructor (families: Families)
      ensures this.families == families
    {
      this.families := families;
    }

    // Atomic: every operation of the batch, or none.
    method Write(batch: seq<WriteOp>, io: Outcome) returns (r: StoreResult<()>)
      modifies this
      ensures r == if io.Success? then Ok(()) else Err(io.error)
      ensures families == if io.Success? then ApplyOps(old(families), batch) else old(families)
    {
      if io.Failure? {
        return Err(io.error);
      }
      families := ApplyOps(families, batch);
      r := Ok(());
    }
  }

  // ----- What a batch does, key by key -----

  lemma {:induction false} ApplyOpsConcat(fs: Families, a: seq<WriteOp>, b: seq<WriteOp>)
    ensures ApplyOps(fs, a + b) == ApplyOps(ApplyOps(fs, a), b)
    decreases |a|
  {
    if a == [] {
      assert a + b == b;
    } else {
      assert (a + b)[1..] == a[1..] + b;
      ApplyOpsConcat(ApplyOp(fs, a[0]), a[1..], b);
    }
  }

  // A batch on one column family changes that family alone.
  lemma {:induction false} ApplyOpsToOneFamily(fs: Families, ops: seq<WriteOp>, f: string)
    requires f in fs && forall i :: 0 <= i < |ops| ==> ops[i].cf == f
    ensures ApplyOps(fs, ops) == fs[f := ApplyAllToTable(fs[f], ops)]
    decreases |ops|
  {
    if ops != [] {
      ApplyOpsToOneFamily(ApplyOp(fs, ops[0]), ops[1..], f);
    }
  }

  lemma {:induction false} ApplyOpsFamilies(fs: Families, ops: seq<WriteOp>)
    ensures ApplyOps(fs, ops).Keys == fs.Keys
    decreases |ops|
  {
    if ops != [] {
      ApplyOpsFamilies(ApplyOp(fs, ops[0]), ops[1..]);
    }
  }

  lemma ApplyOpsLast(fs: Families, ops: seq<WriteOp>)
    requires ops != []
    ensures ApplyOps(fs, ops) == ApplyOp(ApplyOps(fs, ops[..|ops| - 1]), ops[|ops| - 1])
  {
    var n := |ops| - 1;
    assert ops == ops[..n] + [ops[n]];
    ApplyOpsConcat(fs, ops[..n], [ops[n]]);
    assert [ops[n]][1..] == [];
  }

  // A key that no operation covers keeps its value.
  lemma {:induction false} UncoveredKeyIsKept(fs: Families, ops: seq<WriteOp>, f: string, k: Bytes)
    requires f in fs && forall i :: 0 <= i < |ops| ==> !ops[i].Covers(f, k)
    ensures f in ApplyOps(fs, ops) && Lookup(ApplyOps(fs, ops)[f], k) == Lookup(fs[f], k)
    decreases |ops|
  {
    ApplyOpsFamilies(fs, ops);
    if ops != [] {
      ApplyOpsLast(fs, ops);
      UncoveredKeyIsKept(fs, ops[..|ops| - 1], f, k);
      assert !ops[|ops| - 1].Covers(f, k);
    }
  }

  // The last operation that covers a key decides it.
  lemma {:induction false} LastOperationWins(fs: Families, ops: seq<WriteOp>, f: string, k: Bytes, i: nat)
    requires f in fs && i < |ops| && ops[i].Covers(f, k)
    requires forall j :: i < j < |ops| ==> !ops[j].Covers(f, k)
    ensures f in ApplyOps(fs, ops)
    ensures Lookup(ApplyOps(fs, ops)[f], k) == if ops[i].Put? then Some(ops[i].value) else None
    decreases |ops|
  {
    var n := |ops| - 1;
    ApplyOpsFamilies(fs, ops);
    ApplyOpsFamilies(fs, ops[..n]);
    ApplyOpsLast(fs, ops);
    if i < n {
      LastOperationWins(fs, ops[..n], f, k, i);
      assert !ops[n].Covers(f, k);
    }
  }

  // ----- The sorted listing of a table -----

  predicate IsLeast(t: Table, k: Bytes) {
    k in t && forall k' :: k' in t && k' != k ==> LexLess(k, k')
  }

  lemma {:induction false} LeastExists(t: Table)
    requires t != map[]
    ensures exists k :: IsLeast(t, k)
    ensures forall a, b :: IsLeast(t, a) && IsLeast(t, b) ==> a == b
    decreases |t|
  {
    forall a, b | IsLeast(t, a) && IsLeast(t, b) ensures a == b {
      LexTotal(a, b);
    }
    var k :| k in t;
    var rest := t - {k};
    if rest == map[] {
      assert forall k' :: k' in t && k' != k ==> k' in rest;
      assert IsLeast(t, k);
    } else {
      LeastExists(rest);
      var l :| IsLeast(rest, l);
      LexTotal(k, l);
      if LexLess(k, l) {
        forall k' | k' in t && k' != k ensures LexLess(k, k') {
          assert k' in rest;
          if k' != l {
            LexTransitive(k, l, k');
          }
        }
        assert IsLeast(t, k);
      } else {
        assert forall k' :: k' in t && k' != k ==> k' in rest;
        assert IsLeast(t, l);
      }
    }
  }

  function Listing(t: Table): seq<(Bytes, Bytes)>
    decreases |t|
  {
    if t == map[] then [] else
      LeastExists(t);
      var k :| IsLeast(t, k);
      [(k, t[k])] + Listing(t - {k})
  }

  predicate Sorted(entries: seq<(Bytes, Bytes)>) {
    forall i, j :: 0 <= i < j < |entries| ==> LexLess(entries[i].0, entries[j].0)
  }

  // The listing holds exactly the entries of the table, in strictly increasing key order.
  lemma {:induction false} ListingIsSortedAndExact(t: Table)
    ensures Sorted(Listing(t))
    ensures forall e :: e in Listing(t) <==> e.0 in t && t[e.0] == e.1
    ensures |Listing(t)| == |t|
    decreases |t|
  {
    if t != map[] {
      LeastExists(t);
      var k :| IsLeast(t, k);
      var rest := Listing(t - {k});
      ListingIsSortedAndExact(t - {k});
      assert Listing(t) == [(k, t[k])] + rest;
      forall j | 0 <= j < |rest| ensures LexLess(k, rest[j].0) {
        assert rest[j] in rest;
      }
    }
  }
}
