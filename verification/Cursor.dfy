// Cursors over a typed table: Iter and its reversal, Keys and Values, all moving one raw cursor
// over a sorted snapshot of the table.
module Cursor {
  import opened Wrappers
  import opened KeyEncoding
  import opened Tables
  import opened Rocks

  // RocksDB's raw iterator: a position in a fixed sorted listing, invalid before and after it.
  class RawIterator {
    const entries: seq<(Bytes, Bytes)>
    var pos: int

    ghost predicate Valid()
      reads this
    {
      Sorted(entries) && -1 <= pos <= |entries|
    }

    constructor (table: Table)
      ensures Valid() && entries == Listing(table) && pos == 0
    {
      ListingIsSortedAndExact(table);
      entries := Listing(table);
      pos := 0;
    }

    predicate OnEntry()
      reads this
    {
      0 <= pos < |entries|
    }

    method Seek(target: Bytes)
      requires Valid()
      modifies this
      ensures Valid() && pos == CountBelow(entries, target)
    {
      pos := CountBelow(entries, target);
    }

    method SeekForPrev(target: Bytes)
      requires Valid()
      modifies this
      ensures Valid() && pos == CountUpTo(entries, target) - 1
    {
      pos := CountUpTo(entries, target) - 1;
    }

    method SeekToLast()
      requires Valid()
      modifies this
      ensures Valid() && pos == |entries| - 1
    {
      pos := |entries| - 1;
    }

    method Next()
      requires Valid() && OnEntry()
      modifies this
      ensures Valid() && pos == old(pos) + 1
    {
      pos := pos + 1;
    }

    method Prev()
      requires Valid() && OnEntry()
      modifies this
      ensures Valid() && pos == old(pos) - 1
    {
      pos := pos - 1;
    }
  }

  // Where a seek lands: past the entries below the target, or past those not above it.
  function CountBelow(entries: seq<(Bytes, Bytes)>, target: Bytes): (n: nat)
    ensures n <= |entries|
  {
    if entries == [] || !LexLess(entries[0].0, target) then 0 else 1 + CountBelow(entries[1..], target)
  }

  function CountUpTo(entries: seq<(Bytes, Bytes)>, target: Bytes): (n: nat)
    ensures n <= |entries|
  {
    if entries == [] || LexLess(target, entries[0].0) then 0 else 1 + CountUpTo(entries[1..], target)
  }

  // ----- Typed listings -----

  ghost predicate AllReadable<K(!new), V(!new)>(s: Schema<K, V>, entries: seq<(Bytes, Bytes)>) {
    forall i :: 0 <= i < |entries| ==> s.Readable(entries[i].0, entries[i].1)
  }

  ghost function DecodeAll<K(!new), V(!new)>(s: Schema<K, V>, entries: seq<(Bytes, Bytes)>): (all: seq<(K, V)>)
    requires AllReadable(s, entries)
    ensures |all| == |entries|
    ensures forall i :: 0 <= i < |all| ==> all[i] == s.Decode(entries[i].0, entries[i].1)
  {
    seq(|entries|, i requires 0 <= i < |entries| => s.Decode(entries[i].0, entries[i].1))
  }

  ghost predicate KeysStorable<K(!new), V>(c: KeyCodec<K>, all: seq<(K, V)>) {
    forall i :: 0 <= i < |all| ==> c.ser(all[i].0).Ok?
  }

  ghost predicate StrictlyIncreasing<K(!new), V>(c: KeyCodec<K>, all: seq<(K, V)>)
    requires KeysStorable(c, all)
  {
    forall i, j :: 0 <= i < j < |all| ==> c.less(all[i].0, all[j].0)
  }

  // The entries with a key of at least k, and those with a key of at most k.
  ghost function AtLeast<K(!new), V>(c: KeyCodec<K>, all: seq<(K, V)>, k: K): seq<(K, V)>
    requires KeysStorable(c, all) && c.ser(k).Ok?
  {
    if all == [] then [] else (if c.less(all[0].0, k) then [] else [all[0]]) + AtLeast(c, all[1..], k)
  }

  ghost function AtMost<K(!new), V>(c: KeyCodec<K>, all: seq<(K, V)>, k: K): seq<(K, V)>
    requires KeysStorable(c, all) && c.ser(k).Ok?
  {
    if all == [] then [] else (if c.less(k, all[0].0) then [] else [all[0]]) + AtMost(c, all[1..], k)
  }

  function Reversed<T>(s: seq<T>): (r: seq<T>)
    ensures |r| == |s|
    ensures forall i :: 0 <= i < |s| ==> r[i] == s[|s| - 1 - i]
  {
    if s == [] then [] else [s[|s| - 1]] + Reversed(s[..|s| - 1])
  }

  function Firsts<K, V>(s: seq<(K, V)>): (r: seq<K>)
    ensures |r| == |s| && forall i :: 0 <= i < |s| ==> r[i] == s[i].0
  {
    seq(|s|, i requires 0 <= i < |s| => s[i].0)
  }

  function Seconds<K, V>(s: seq<(K, V)>): (r: seq<V>)
    ensures |r| == |s| && forall i :: 0 <= i < |s| ==> r[i] == s[i].1
  {
    seq(|s|, i requires 0 <= i < |s| => s[i].1)
  }

  // Byte-sorted entries are sorted in key order once decoded.
  lemma DecodedIsIncreasing<K(!new), V(!new)>(s: Schema<K, V>, entries: seq<(Bytes, Bytes)>)
    requires s.key.Ordered() && AllReadable(s, entries) && Sorted(entries)
    ensures KeysStorable(s.key, DecodeAll(s, entries)) && StrictlyIncreasing(s.key, DecodeAll(s, entries))
  {
    var all := DecodeAll(s, entries);
    forall i, j | 0 <= i < j < |all| ensures s.key.less(all[i].0, all[j].0) {
    }
  }

  lemma {:induction false} CountBelowSplits(entries: seq<(Bytes, Bytes)>, target: Bytes)
    requires Sorted(entries)
    ensures forall j :: 0 <= j < |entries| ==> (LexLess(entries[j].0, target) <==> j < CountBelow(entries, target))
  {
    if entries != [] {
      if LexLess(entries[0].0, target) {
        CountBelowSplits(entries[1..], target);
        assert forall j :: 1 <= j < |entries| ==> entries[j] == entries[1..][j - 1];
      } else {
        forall j | 0 <= j < |entries| ensures !LexLess(entries[j].0, target) {
          if j > 0 && LexLess(entries[j].0, target) {
            LexTransitive(entries[0].0, entries[j].0, target);
          }
        }
      }
    }
  }

  lemma {:induction false} CountUpToSplits(entries: seq<(Bytes, Bytes)>, target: Bytes)
    requires Sorted(entries)
    ensures forall j :: 0 <= j < |entries| ==> (LexLess(target, entries[j].0) <==> j >= CountUpTo(entries, target))
  {
    if entries != [] {
      if LexLess(target, entries[0].0) {
        forall j | 0 <= j < |entries| ensures LexLess(target, entries[j].0) {
          if j > 0 {
            LexTransitive(target, entries[0].0, entries[j].0);
          }
        }
      } else {
        CountUpToSplits(entries[1..], target);
        assert forall j :: 1 <= j < |entries| ==> entries[j] == entries[1..][j - 1];
      }
    }
  }

  lemma {:induction false} SplitIsAtLeast<K(!new), V>(c: KeyCodec<K>, all: seq<(K, V)>, k: K, i: nat)
    requires KeysStorable(c, all) && c.ser(k).Ok? && i <= |all|
    requires forall j :: 0 <= j < |all| ==> (c.less(all[j].0, k) <==> j < i)
    ensures all[i..] == AtLeast(c, all, k)
  {
    if all != [] {
      SplitIsAtLeast(c, all[1..], k, if i == 0 then 0 else i - 1);
    }
  }

  lemma {:induction false} SplitIsAtMost<K(!new), V>(c: KeyCodec<K>, all: seq<(K, V)>, k: K, i: nat)
    requires KeysStorable(c, all) && c.ser(k).Ok? && i <= |all|
    requires forall j :: 0 <= j < |all| ==> (c.less(k, all[j].0) <==> j >= i)
    ensures all[..i] == AtMost(c, all, k)
  {
    if all != [] {
      SplitIsAtMost(c, all[1..], k, if i == 0 then 0 else i - 1);
    }
  }

  // A seek to the encoding of k lands exactly on the entries with a key of at least k.
  lemma SeekSelects<K(!new), V(!new)>(s: Schema<K, V>, entries: seq<(Bytes, Bytes)>, k: K)
    requires s.key.Ordered() && AllReadable(s, entries) && Sorted(entries) && s.key.ser(k).Ok?
    ensures KeysStorable(s.key, DecodeAll(s, entries))
    ensures DecodeAll(s, entries)[CountBelow(entries, s.key.ser(k).value)..] == AtLeast(s.key, DecodeAll(s, entries), k)
  {
    var all, b := DecodeAll(s, entries), s.key.ser(k).value;
    CountBelowSplits(entries, b);
    forall j | 0 <= j < |all| ensures s.key.less(all[j].0, k) <==> j < CountBelow(entries, b) {
    }
    SplitIsAtLeast(s.key, all, k, CountBelow(entries, b));
  }

  // A seek for the previous key lands on the last entry with a key of at most k.
  lemma SeekForPrevSelects<K(!new), V(!new)>(s: Schema<K, V>, entries: seq<(Bytes, Bytes)>, k: K)
    requires s.key.Ordered() && AllReadable(s, entries) && Sorted(entries) && s.key.ser(k).Ok?
    ensures KeysStorable(s.key, DecodeAll(s, entries))
    ensures DecodeAll(s, entries)[..CountUpTo(entries, s.key.ser(k).value)] == AtMost(s.key, DecodeAll(s, entries), k)
  {
    var all, b := DecodeAll(s, entries), s.key.ser(k).value;
    CountUpToSplits(entries, b);
    forall j | 0 <= j < |all| ensures s.key.less(k, all[j].0) <==> j >= CountUpTo(entries, b) {
    }
    SplitIsAtMost(s.key, all, k, CountUpTo(entries, b));
  }

  // In the order of keys: a seek lands on the first key at or after the target, and a seek for the
  // previous key on the last one at or before it.
  lemma SeekSplits<K(!new), V(!new)>(s: Schema<K, V>, entries: seq<(Bytes, Bytes)>, k: K)
    requires s.key.Ordered() && AllReadable(s, entries) && Sorted(entries) && s.key.ser(k).Ok?
    ensures var all, b := DecodeAll(s, entries), s.key.ser(k).value;
            && (forall j :: 0 <= j < |all| ==> (s.key.less(all[j].0, k) <==> j < CountBelow(entries, b)))
            && (forall j :: 0 <= j < |all| ==> (s.key.less(k, all[j].0) <==> j >= CountUpTo(entries, b)))
  {
    hide CountBelow, CountUpTo;
    var all, b := DecodeAll(s, entries), s.key.ser(k).value;
    CountBelowSplits(entries, b);
    CountUpToSplits(entries, b);
    forall j | 0 <= j < |all|
      ensures s.key.less(all[j].0, k) <==> j < CountBelow(entries, b)
      ensures s.key.less(k, all[j].0) <==> j >= CountUpTo(entries, b) {
      assert s.key.ser(all[j].0) == Ok(entries[j].0);
    }
  }

  // ----- Iter -----

  datatype Direction = Forward | Reverse

  // What a cursor at a position still has to yield.
  ghost function Remaining<T>(all: seq<T>, pos: int, direction: Direction): seq<T> {
    if pos < 0 || pos >= |all| then []
    else if direction.Forward? then all[pos..]
    else Reversed(all[..pos + 1])
  }

  lemma RemainingSteps<T>(all: seq<T>, pos: int, direction: Direction)
    requires 0 <= pos < |all|
    ensures Remaining(all, pos, direction) ==
            [all[pos]] + Remaining(all, if direction.Forward? then pos + 1 else pos - 1, direction)
  {
    if direction.Reverse? {
      assert all[..pos + 1][..pos] == all[..pos];
    }
  }

  // A reversed cursor yields the whole listing backwards exactly if it stands on the last entry.
  lemma ReverseIsWholeAtEnd<T>(all: seq<T>, pos: int)
    requires -1 <= pos <= |all|
    ensures Remaining(all, pos, Reverse) == Reversed(all) <==> all == [] || pos == |all| - 1
  {
    if all != [] && pos == |all| - 1 {
      assert all[..pos + 1] == all;
    }
    if all != [] && pos != |all| - 1 {
      assert |Remaining(all, pos, Reverse)| != |all|;
    }
  }

  // Reversing a new iterator over two entries yields only the first one.
  lemma ReverseFromStartYieldsOne<T>(a: T, b: T)
    ensures Remaining([a, b], 0, Reverse) == [a] && Reversed([a, b]) == [b, a]
  {
    assert [a, b][..1] == [a] && [a, b][..1][..0] == [];
  }

  class Iter<K(!new), V(!new)> {
    const schema: Schema<K, V>
    const dbIter: RawIterator
    var direction: Direction

    ghost predicate Valid()
      reads this, dbIter
    {
      dbIter.Valid() && schema.key.Ordered() && AllReadable(schema, dbIter.entries)
    }

    // Everything the table holds, in key order.
    ghost function All(): seq<(K, V)>
      requires AllReadable(schema, dbIter.entries)
    {
      DecodeAll(schema, dbIter.entries)
    }

    // What the iterator still has to yield.
    ghost function Pending(): seq<(K, V)>
      reads this, dbIter
      requires Valid()
    {
      Remaining(All(), dbIter.pos, direction)
    }

    constructor (schema: Schema<K, V>, table: Table)
      requires schema.key.Ordered() && schema.WellFormed(table)
      ensures Valid() && fresh(dbIter) && this.schema == schema && dbIter.entries == Listing(table)
      ensures direction == Forward && Pending() == All()
    {
      this.schema := schema;
      ListingIsSortedAndExact(table);
      dbIter := new RawIterator(table);
      direction := Forward;
      new;
      forall i | 0 <= i < |dbIter.entries| ensures schema.Readable(dbIter.entries[i].0, dbIter.entries[i].1) {
        assert dbIter.entries[i] in Listing(table);
      }
    }

    method Next() returns (r: Option<(K, V)>)
      requires Valid()
      modifies dbIter
      ensures Valid()
      ensures old(Pending()) == if r.Some? then [r.value] + Pending() else []
      ensures r.None? ==> Pending() == []
    {
      if dbIter.OnEntry() {
        RemainingSteps(All(), dbIter.pos, direction);
        var rawKey, rawValue := dbIter.entries[dbIter.pos].0, dbIter.entries[dbIter.pos].1;
        var key := schema.key.de(rawKey);
        var value := schema.value.de(rawValue);
        match direction {
          case Forward => dbIter.Next();
          case Reverse => dbIter.Prev();
        }
        r := if key.Some? && value.Ok? then Some((key.value, value.value)) else None;
      } else {
        r := None;
      }
    }

    // Yields exactly the entries at or after the key. An error consumes the iterator.
    method SkipTo(key: K) returns (r: StoreResult<()>)
      requires Valid() && direction.Forward?
      modifies dbIter
      ensures Valid() && KeysStorable(schema.key, All())
      ensures r.Ok? <==> schema.key.ser(key).Ok?
      ensures r.Ok? ==> Pending() == AtLeast(schema.key, All(), key)
      ensures r.Ok? ==> 0 <= dbIter.pos == |All()| - |AtLeast(schema.key, All(), key)|
      ensures r.Ok? ==> Pending() == All()[dbIter.pos..]
      ensures r.Ok? ==> forall j :: 0 <= j < |All()| ==> (schema.key.less(All()[j].0, key) <==> j < dbIter.pos)
    {
      hide AtLeast, CountBelow, CountUpTo, DecodeAll, KeysStorable, StrictlyIncreasing, KeyCodec.Ordered, Sorted;
      DecodedIsIncreasing(schema, dbIter.entries);
      var target := schema.key.ser(key);
      if target.Err? {
        return Err(target.error);
      }
      dbIter.Seek(target.value);
      SeekSelects(schema, dbIter.entries, key);
      SeekSplits(schema, dbIter.entries, key);
      r := Ok(());
    }

    // Starts at the greatest key at or before the given one and yields everything from there on,
    // or nothing if there is no such key.
    method SkipPriorTo(key: K) returns (r: StoreResult<()>)
      requires Valid() && direction.Forward?
      modifies dbIter
      ensures Valid() && KeysStorable(schema.key, All())
      ensures r.Ok? <==> schema.key.ser(key).Ok?
      ensures r.Ok? ==> var before := AtMost(schema.key, All(), key);
                        && before <= All()
                        && Pending() == (if before == [] then [] else All()[|before| - 1..])
                        && dbIter.pos == |before| - 1
      ensures r.Ok? ==> -1 <= dbIter.pos < |All()|
      ensures r.Ok? ==> forall j :: 0 <= j < |All()| ==> (schema.key.less(key, All()[j].0) <==> j > dbIter.pos)
    {
      hide AtMost, CountBelow, CountUpTo, DecodeAll, KeysStorable, StrictlyIncreasing, KeyCodec.Ordered, Sorted;
      DecodedIsIncreasing(schema, dbIter.entries);
      var target := schema.key.ser(key);
      if target.Err? {
        return Err(target.error);
      }
      dbIter.SeekForPrev(target.value);
      SeekForPrevSelects(schema, dbIter.entries, key);
      SeekSplits(schema, dbIter.entries, key);
      r := Ok(());
    }

    method SkipToLast()
      requires Valid() && direction.Forward?
      modifies dbIter
      ensures Valid() && dbIter.pos == |All()| - 1
      ensures Pending() == if All() == [] then [] else [All()[|All()| - 1]]
    {
      dbIter.SeekToLast();
    }

    // The reversed iterator yields the entries from the current one down to the first.
    method Reverse() returns (rev: RevIter<K, V>)
      requires Valid() && direction.Forward?
      modifies this
      ensures rev.iter == this && fresh(rev) && Valid() && dbIter.pos == old(dbIter.pos)
      ensures Pending() == if dbIter.OnEntry() then Reversed(All()[..dbIter.pos + 1]) else []
      ensures Pending() == Reversed(All()) <==> All() == [] || dbIter.pos == |All()| - 1
    {
      ReverseIsWholeAtEnd(All(), dbIter.pos);
      direction := Direction.Reverse;
      rev := new RevIter(this);
    }

    // Calls next until it returns None.
    method Collect() returns (out: seq<(K, V)>)
      requires Valid()
      modifies dbIter
      ensures Valid() && Pending() == [] && out == old(Pending())
    {
      hide Iter.Valid, Iter.Pending;
      out := [];
      ghost var all := Pending();
      var item := Next();
      while item.Some?
        invariant Valid()
        invariant all == out + (if item.Some? then [item.value] else []) + Pending()
        invariant item.None? ==> Pending() == []
        decreases |all| - |out|
      {
        out := out + [item.value];
        item := Next();
      }
    }
  }

  class RevIter<K(!new), V(!new)> {
    const iter: Iter<K, V>

    constructor (iter: Iter<K, V>)
      ensures this.iter == iter
    {
      this.iter := iter;
    }

    method Next() returns (r: Option<(K, V)>)
      requires iter.Valid()
      modifies iter.dbIter
      ensures iter.Valid()
      ensures old(iter.Pending()) == if r.Some? then [r.value] + iter.Pending() else []
      ensures r.None? ==> iter.Pending() == []
    {
      r := iter.Next();
    }

    // Calls next until it returns None.
    method Collect() returns (out: seq<(K, V)>)
      requires iter.Valid()
      modifies iter.dbIter
      ensures iter.Valid() && iter.Pending() == [] && out == old(iter.Pending())
    {
      out := iter.Collect();
    }
  }

  // ----- Reversed scans, as callers chain them -----

  // From the last entry down to the first.
  method ScanBackFromLast<K(!new), V(!new)>(it: Iter<K, V>) returns (out: seq<(K, V)>)
    requires it.Valid() && it.direction.Forward?
    modifies it, it.dbIter
    ensures out == Reversed(it.All())
  {
    it.SkipToLast();
    var rev := it.Reverse();
    out := rev.Collect();
    assert it.All()[..|it.All()|] == it.All();
  }

  // From the greatest key at or before the given one down to the first.
  method ScanBackFromPrior<K(!new), V(!new)>(it: Iter<K, V>, key: K) returns (r: StoreResult<seq<(K, V)>>)
    requires it.Valid() && it.direction.Forward?
    modifies it, it.dbIter
    ensures KeysStorable(it.schema.key, it.All())
    ensures r.Ok? <==> it.schema.key.ser(key).Ok?
    ensures r.Ok? ==> r.value == Reversed(AtMost(it.schema.key, it.All(), key))
  {
    hide Iter.Valid, Iter.Pending, DecodeAll, Reversed, AtMost, KeysStorable;
    var skipped := it.SkipPriorTo(key);
    if skipped.Err? {
      return Err(skipped.error);
    }
    var rev := it.Reverse();
    var out := rev.Collect();
    r := Ok(out);
  }

  // From the first entry at or after the key down to the first entry of the table, and nothing at all
  // when the key is beyond the last entry.
  method ScanBackFrom<K(!new), V(!new)>(it: Iter<K, V>, key: K) returns (r: StoreResult<seq<(K, V)>>)
    requires it.Valid() && it.direction.Forward?
    modifies it, it.dbIter
    ensures KeysStorable(it.schema.key, it.All())
    ensures r.Ok? <==> it.schema.key.ser(key).Ok?
    ensures r.Ok? ==> var above := AtLeast(it.schema.key, it.All(), key);
                      && |above| <= |it.All()|
                      && r.value == if above == [] then [] else Reversed(it.All()[..|it.All()| - |above| + 1])
  {
    hide Iter.Valid, Iter.Pending, DecodeAll, Reversed, AtLeast, KeysStorable;
    var skipped := it.SkipTo(key);
    if skipped.Err? {
      return Err(skipped.error);
    }
    var rev := it.Reverse();
    var out := rev.Collect();
    r := Ok(out);
  }

  // ----- Keys and Values -----

  class Keys<K(!new), V(!new)> {
    const schema: Schema<K, V>
    const dbIter: RawIterator

    ghost predicate Valid()
      reads dbIter
    {
      dbIter.Valid() && schema.key.Ordered() && AllReadable(schema, dbIter.entries)
    }

    // The keys of what an Iter at the same position still has to yield.
    ghost function Pending(): seq<K>
      reads dbIter
      requires Valid()
    {
      if dbIter.OnEntry() then Firsts(DecodeAll(schema, dbIter.entries)[dbIter.pos..]) else []
    }

    constructor (schema: Schema<K, V>, table: Table)
      requires schema.key.Ordered() && schema.WellFormed(table)
      ensures Valid() && fresh(dbIter) && this.schema == schema && dbIter.entries == Listing(table)
      ensures Pending() == Firsts(DecodeAll(schema, dbIter.entries))
    {
      this.schema := schema;
      ListingIsSortedAndExact(table);
      dbIter := new RawIterator(table);
      new;
      forall i | 0 <= i < |dbIter.entries| ensures schema.Readable(dbIter.entries[i].0, dbIter.entries[i].1) {
        assert dbIter.entries[i] in Listing(table);
      }
    }

    method Next() returns (r: Option<K>)
      requires Valid()
      modifies dbIter
      ensures Valid()
      ensures old(Pending()) == if r.Some? then [r.value] + Pending() else []
      ensures r.None? ==> Pending() == []
    {
      if dbIter.OnEntry() {
        r := schema.key.de(dbIter.entries[dbIter.pos].0);
        dbIter.Next();
      } else {
        r := None;
      }
    }

    method SkipTo(key: K) returns (r: StoreResult<()>)
      requires Valid()
      modifies dbIter
      ensures Valid() && KeysStorable(schema.key, DecodeAll(schema, dbIter.entries))
      ensures r.Ok? <==> schema.key.ser(key).Ok?
      ensures r.Ok? ==> Pending() == Firsts(AtLeast(schema.key, DecodeAll(schema, dbIter.entries), key))
    {
      DecodedIsIncreasing(schema, dbIter.entries);
      var target := schema.key.ser(key);
      if target.Err? {
        return Err(target.error);
      }
      dbIter.Seek(target.value);
      SeekSelects(schema, dbIter.entries, key);
      r := Ok(());
    }

    method SkipPriorTo(key: K) returns (r: StoreResult<()>)
      requires Valid()
      modifies dbIter
      ensures Valid() && KeysStorable(schema.key, DecodeAll(schema, dbIter.entries))
      ensures r.Ok? <==> schema.key.ser(key).Ok?
      ensures r.Ok? ==> var all := DecodeAll(schema, dbIter.entries);
                        var before := AtMost(schema.key, all, key);
                        before <= all && Pending() == if before == [] then [] else Firsts(all[|before| - 1..])
    {
      DecodedIsIncreasing(schema, dbIter.entries);
      var target := schema.key.ser(key);
      if target.Err? {
        return Err(target.error);
      }
      dbIter.SeekForPrev(target.value);
      SeekForPrevSelects(schema, dbIter.entries, key);
      r := Ok(());
    }

    method SkipToLast()
      requires Valid()
      modifies dbIter
      ensures Valid()
      ensures var all := DecodeAll(schema, dbIter.entries);
              Pending() == if all == [] then [] else [all[|all| - 1].0]
    {
      dbIter.SeekToLast();
    }
  }

  class Values<K(!new), V(!new)> {
    const schema: Schema<K, V>
    const dbIter: RawIterator

    ghost predicate Valid()
      reads dbIter
    {
      dbIter.Valid() && schema.key.Ordered() && AllReadable(schema, dbIter.entries)
    }

    ghost function Pending(): seq<V>
      reads dbIter
      requires Valid()
    {
      if dbIter.OnEntry() then Seconds(DecodeAll(schema, dbIter.entries)[dbIter.pos..]) else []
    }

    constructor (schema: Schema<K, V>, table: Table)
      requires schema.key.Ordered() && schema.WellFormed(table)
      ensures Valid() && fresh(dbIter) && this.schema == schema && dbIter.entries == Listing(table)
      ensures Pending() == Seconds(DecodeAll(schema, dbIter.entries))
    {
      this.schema := schema;
      ListingIsSortedAndExact(table);
      dbIter := new RawIterator(table);
      new;
      forall i | 0 <= i < |dbIter.entries| ensures schema.Readable(dbIter.entries[i].0, dbIter.entries[i].1) {
        assert dbIter.entries[i] in Listing(table);
      }
    }

    method Next() returns (r: Option<V>)
      requires Valid()
      modifies dbIter
      ensures Valid()
      ensures old(Pending()) == if r.Some? then [r.value] + Pending() else []
      ensures r.None? ==> Pending() == []
    {
      if dbIter.OnEntry() {
        var value := schema.value.de(dbIter.entries[dbIter.pos].1);
        r := if value.Ok? then Some(value.value) else None;
        dbIter.Next();
      } else {
        r := None;
      }
    }
  }
}
