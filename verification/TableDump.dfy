// The generated dump and count_keys of a typed store: pages of a table in key order.
module TableDump {
  import opened Wrappers
  import opened KeyEncoding
  import opened Tables
  import opened Cursor
  import opened TypedMap

  function Min(a: nat, b: nat): nat {
    if a < b then a else b
  }

  // The entries that skip(number * size).take(size) selects.
  function Page<T>(all: seq<T>, size: nat, number: nat): seq<T> {
    all[Min(number * size, |all|)..Min(number * size + size, |all|)]
  }

  // Collecting the debug text of entries into an ordered map.
  function Rendered<K, V>(entries: seq<(K, V)>, showKey: K -> string, showValue: V -> string): map<string, string> {
    PutAll(map[], Texts(entries, showKey, showValue))
  }

  function Texts<K, V>(entries: seq<(K, V)>, showKey: K -> string, showValue: V -> string): seq<(string, string)> {
    seq(|entries|, i requires 0 <= i < |entries| => (showKey(entries[i].0), showValue(entries[i].1)))
  }

  // Whether no later entry has the same key text, so that entry i is the one that is shown.
  ghost predicate IsShown<K, V>(entries: seq<(K, V)>, showKey: K -> string, i: nat)
    requires i < |entries|
  {
    forall j :: i < j < |entries| ==> showKey(entries[j].0) != showKey(entries[i].0)
  }

  // A rendering maps the text of each key to the text of that key's value, and holds no other text.
  ghost predicate Shows<K, V>(
      text: map<string, string>, entries: seq<(K, V)>, showKey: K -> string, showValue: V -> string)
  {
    && (forall i :: 0 <= i < |entries| ==> showKey(entries[i].0) in text)
    && (forall i :: 0 <= i < |entries| && IsShown(entries, showKey, i) ==>
          Lookup(text, showKey(entries[i].0)) == Some(showValue(entries[i].1)))
    && (forall k :: k in text ==> exists i :: 0 <= i < |entries| && showKey(entries[i].0) == k)
  }

  lemma RenderedShows<K, V>(entries: seq<(K, V)>, showKey: K -> string, showValue: V -> string)
    ensures Shows(Rendered(entries, showKey, showValue), entries, showKey, showValue)
  {
    var texts := Texts(entries, showKey, showValue);
    var shown := Rendered(entries, showKey, showValue);
    PutAllKeys(map[], texts);
    forall i | 0 <= i < |entries| ensures showKey(entries[i].0) in shown {
      assert KeysOf(texts)[i] == showKey(entries[i].0);
    }
    forall i | 0 <= i < |entries| && IsShown(entries, showKey, i)
      ensures Lookup(shown, showKey(entries[i].0)) == Some(showValue(entries[i].1)) {
      PutAllLastWins(map[], texts, i);
    }
    forall k | k in shown ensures exists i :: 0 <= i < |entries| && showKey(entries[i].0) == k {
      var i :| 0 <= i < |texts| && KeysOf(texts)[i] == k;
      assert showKey(entries[i].0) == k;
    }
  }

  method Skip<K(!new), V(!new)>(it: Iter<K, V>, n: nat)
    requires it.Valid()
    modifies it.dbIter
    ensures it.Valid() && it.Pending() == old(it.Pending())[Min(n, |old(it.Pending())|)..]
  {
    hide Iter.Valid, Iter.Pending;
    ghost var all := it.Pending();
    ghost var skipped: seq<(K, V)> := [];
    for i := 0 to n
      invariant it.Valid() && all == skipped + it.Pending()
      invariant |skipped| <= i && (|skipped| < i ==> it.Pending() == [])
    {
      var item := it.Next();
      skipped := skipped + if item.Some? then [item.value] else [];
    }
  }

  method Take<K(!new), V(!new)>(it: Iter<K, V>, n: nat) returns (taken: seq<(K, V)>)
    requires it.Valid()
    modifies it.dbIter
    ensures it.Valid() && taken == old(it.Pending())[..Min(n, |old(it.Pending())|)]
  {
    hide Iter.Valid, Iter.Pending;
    ghost var all := it.Pending();
    taken := [];
    for i := 0 to n
      invariant it.Valid() && all == taken + it.Pending()
      invariant |taken| <= i && (|taken| < i ==> it.Pending() == [])
    {
      var item := it.Next();
      if item.Some? {
        taken := taken + [item.value];
      }
    }
  }

  lemma PageIsTakeAfterSkip<T>(all: seq<T>, size: nat, number: nat)
    ensures var rest := all[Min(number * size, |all|)..];
            rest[..Min(size, |rest|)] == Page(all, size, number)
  {
  }

  // The page of what the iterator yields.
  method SelectPage<K(!new), V(!new)>(it: Iter<K, V>, size: nat, number: nat) returns (page: seq<(K, V)>)
    requires it.Valid()
    modifies it.dbIter
    ensures page == Page(old(it.Pending()), size, number)
  {
    PageIsTakeAfterSkip(it.Pending(), size, number);
    Skip(it, number * size);
    page := Take(it, size);
  }

  method Dump<K(==,!new), V(!new)>(
      db: DBMap<K, V>, pageSize: nat, pageNumber: nat, showKey: K -> string, showValue: V -> string, catchUp: Outcome)
    returns (r: StoreResult<map<string, string>>, ghost all: seq<(K, V)>)
    requires db.Valid()
    ensures r.Ok? <==> catchUp.Success?
    ensures r.Ok? ==> IsListingOf(db.schema.key, all, db.View())
    ensures r.Ok? ==> r.value == Rendered(Page(all, pageSize, pageNumber), showKey, showValue)
    ensures r.Ok? ==> Shows(r.value, Page(all, pageSize, pageNumber), showKey, showValue)
  {
    all := [];
    if catchUp.Failure? {
      return Err(catchUp.error), all;
    }
    var it := db.Iterate();
    all := it.All();
    var page := SelectPage(it, pageSize, pageNumber);
    RenderedShows(page, showKey, showValue);
    r := Ok(Rendered(page, showKey, showValue));
  }

  method CountKeys<K(==,!new), V(!new)>(db: DBMap<K, V>, catchUp: Outcome) returns (r: StoreResult<nat>)
    requires db.Valid()
    ensures r == if catchUp.Success? then Ok(|db.View()|) else Err(catchUp.error)
  {
    hide Iter.Valid, Iter.Pending, DBMap.Valid, DBMap.View;
    if catchUp.Failure? {
      return Err(catchUp.error);
    }
    var it := db.Iterate();
    ghost var all := it.All();
    var count := 0;
    var item := it.Next();
    while item.Some?
      invariant it.Valid() && fresh(it.dbIter) && db.Valid()
      invariant count + (if item.Some? then 1 else 0) + |it.Pending()| == |all|
      invariant item.None? ==> it.Pending() == []
      decreases |all| - count
    {
      count := count + 1;
      item := it.Next();
    }
    r := Ok(count);
  }

  // ----- Pages partition the table -----

  function Pages<T>(all: seq<T>, size: nat, count: nat): seq<T> {
    if count == 0 then [] else Pages(all, size, count - 1) + Page(all, size, count - 1)
  }

  lemma {:induction false} PagesArePrefix<T>(all: seq<T>, size: nat, count: nat)
    ensures Pages(all, size, count) == all[..Min(count * size, |all|)]
  {
    if count > 0 {
      PagesArePrefix(all, size, count - 1);
      assert (count - 1) * size + size == count * size;
    }
  }

  // The first pages, put together, are the whole listing as soon as there are enough of them.
  lemma PagesAreWhole<T>(all: seq<T>, size: nat, count: nat)
    requires count * size >= |all|
    ensures Pages(all, size, count) == all
  {
    PagesArePrefix(all, size, count);
  }

  lemma MulMonotone(a: nat, b: nat, size: nat)
    requires a <= b
    ensures a * size <= b * size
  {
  }

  // Every entry is on exactly one page.
  lemma EachEntryOnOnePage<T>(all: seq<T>, size: nat, i: nat, number: nat)
    requires size > 0 && i < |all|
    ensures (Min(number * size, |all|) <= i < Min(number * size + size, |all|)) <==> number == i / size
  {
    QuotientIsUnique(i, size, number);
  }

  lemma QuotientIsUnique(i: nat, size: nat, number: nat)
    requires size > 0
    ensures number * size <= i < number * size + size <==> number == i / size
  {
    var q := i / size;
    assert q * size <= i < q * size + size;
    if number < q {
      MulMonotone(number + 1, q, size);
    } else if number > q {
      MulMonotone(q + 1, number, size);
    }
  }

  // With debug texts that tell keys apart, a dumped page is as large as the page.
  lemma RenderedSize<K(!new), V(!new)>(
      c: KeyCodec<K>, all: seq<(K, V)>, m: map<K, V>, size: nat, number: nat, showKey: K -> string,
      showValue: V -> string)
    requires c.Ordered() && IsListingOf(c, all, m)
    requires forall a, b :: showKey(a) == showKey(b) ==> a == b
    ensures |Rendered(Page(all, size, number), showKey, showValue)| == |Page(all, size, number)|
  {
    var page := Page(all, size, number);
    var texts := Texts(page, showKey, showValue);
    forall i, j | 0 <= i < j < |page| ensures texts[i].0 != texts[j].0 {
      var from := Min(number * size, |all|);
      assert c.less(all[from + i].0, all[from + j].0);
      if page[i].0 == page[j].0 {
        KeyIrreflexive(c, page[i].0);
      }
    }
    DistinctPutsCount(map[], texts);
  }

  // What the first count pages show, counted page by page.
  function Shown<K, V>(all: seq<(K, V)>, size: nat, count: nat, showKey: K -> string, showValue: V -> string): nat {
    if count == 0 then 0
    else Shown(all, size, count - 1, showKey, showValue) + |Rendered(Page(all, size, count - 1), showKey, showValue)|
  }

  lemma {:induction false} ShownIsSelected<K(!new), V(!new)>(
      c: KeyCodec<K>, all: seq<(K, V)>, m: map<K, V>, size: nat, count: nat, showKey: K -> string,
      showValue: V -> string)
    requires c.Ordered() && IsListingOf(c, all, m)
    requires forall a, b :: showKey(a) == showKey(b) ==> a == b
    ensures Shown(all, size, count, showKey, showValue) == |Pages(all, size, count)|
    decreases count
  {
    hide IsListingOf, KeyCodec.Ordered, Rendered, Page;
    if count > 0 {
      RenderedSize(c, all, m, size, count - 1, showKey, showValue);
      ShownIsSelected(c, all, m, size, count - 1, showKey, showValue);
    }
  }

  // Dumping page after page shows as many entries as count_keys counts.
  lemma ShownIsCounted<K(!new), V(!new)>(
      c: KeyCodec<K>, all: seq<(K, V)>, m: map<K, V>, size: nat, count: nat, showKey: K -> string,
      showValue: V -> string)
    requires c.Ordered() && IsListingOf(c, all, m) && count * size >= |m|
    requires forall a, b :: showKey(a) == showKey(b) ==> a == b
    ensures Shown(all, size, count, showKey, showValue) == |m|
  {
    hide IsListingOf, KeyCodec.Ordered;
    ShownIsSelected(c, all, m, size, count, showKey, showValue);
    ListingSize(c, all, m);
    PagesAreWhole(all, size, count);
  }

  lemma ListingSize<K(!new), V(!new)>(c: KeyCodec<K>, all: seq<(K, V)>, m: map<K, V>)
    requires IsListingOf(c, all, m)
    ensures |all| == |m|
  {
  }

  lemma KeyIrreflexive<K(!new)>(c: KeyCodec<K>, k: K)
    requires c.Ordered() && c.ser(k).Ok?
    ensures !c.less(k, k)
  {
    LexIrreflexive(c.ser(k).value);
  }

  lemma {:induction false} DistinctPutsCount<K, V>(m: map<K, V>, kvs: seq<(K, V)>)
    requires forall i, j :: 0 <= i < j < |kvs| ==> kvs[i].0 != kvs[j].0
    requires forall i :: 0 <= i < |kvs| ==> kvs[i].0 !in m
    ensures |PutAll(m, kvs)| == |m| + |kvs|
    decreases |kvs|
  {
    if kvs != [] {
      var m' := m[kvs[0].0 := kvs[0].1];
      assert m'.Keys == m.Keys + {kvs[0].0};
      DistinctPutsCount(m', kvs[1..]);
    }
  }
}
