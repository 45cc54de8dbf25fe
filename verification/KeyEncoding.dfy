// The key serialization of a typed table: big-endian, fixed-width integers, 8-byte length
// prefixes. Every key type built from these constructors is covered at once by a deep embedding.
module KeyEncoding {
  import opened Wrappers

  type Byte = x: int | 0 <= x < 256
  type Bytes = seq<Byte>

  // RocksDB's default comparator: unsigned lexicographic order.
  predicate LexLess(a: Bytes, b: Bytes) {
    b != [] && (a == [] || a[0] < b[0] || (a[0] == b[0] && LexLess(a[1..], b[1..])))
  }

  // ----- Types and values of keys -----

  datatype KeyType =
    | Unsigned(width: nat)                     // u8, u16, u32, u64, u128
    | Signed(width: nat)                       // i8, ..., i128
    | Many(element: KeyType)                   // Vec<T>; String and Vec<u8> are Many(Unsigned(1))
    | Pair(first: KeyType, second: KeyType)    // tuples and structs, nested to the right

  datatype Key =
    | Number(n: int)
    | Items(items: seq<Key>)
    | Both(fst: Key, snd: Key)
    | Unserializable                           // a value whose Serialize implementation fails

  const LENGTH_WIDTH: nat := 8

  function Pow256(w: nat): (p: int)
    ensures p >= 1
  {
    if w == 0 then 1 else 256 * Pow256(w - 1)
  }

  predicate HasType(t: KeyType, k: Key)
    decreases t
  {
    k.Unserializable? ||
    match t
    case Unsigned(w) => k.Number? && 0 <= k.n < Pow256(w)
    case Signed(w) => k.Number? && -Pow256(w) <= 2 * k.n < Pow256(w)
    case Many(e) => k.Items? && |k.items| < Pow256(LENGTH_WIDTH) && forall i :: 0 <= i < |k.items| ==>
        HasType(e, k.items[i])
    case Pair(t1, t2) => k.Both? && HasType(t1, k.fst) && HasType(t2, k.snd)
  }

  predicate Serializable(k: Key) {
    match k
    case Number(_) => true
    case Items(items) => forall i :: 0 <= i < |items| ==> Serializable(items[i])
    case Both(fst, snd) => Serializable(fst) && Serializable(snd)
    case Unserializable => false
  }

  // A key that the table can hold.
  predicate Storable(t: KeyType, k: Key) {
    HasType(t, k) && Serializable(k)
  }

  // ----- Encoding -----

  // The w low-order bytes of n, most significant first.
  function BigEndian(n: nat, w: nat): (b: Bytes)
    ensures |b| == w
  {
    if w == 0 then [] else BigEndian(n / 256, w - 1) + [n % 256]
  }

  function TwosComplement(n: int, w: nat): (m: nat)
    requires -Pow256(w) <= n
  {
    if n < 0 then n + Pow256(w) else n
  }

  function Encode(t: KeyType, k: Key): Bytes
    requires Storable(t, k)
    decreases t, 0
  {
    match t
    case Unsigned(w) => BigEndian(k.n, w)
    case Signed(w) => BigEndian(TwosComplement(k.n, w), w)
    case Many(e) => BigEndian(|k.items|, LENGTH_WIDTH) + EncodeItems(e, k.items)
    case Pair(t1, t2) => Encode(t1, k.fst) + Encode(t2, k.snd)
  }

  function EncodeItems(e: KeyType, items: seq<Key>): Bytes
    requires forall i :: 0 <= i < |items| ==> Storable(e, items[i])
    decreases e, |items| + 1
  {
    if items == [] then [] else Encode(e, items[0]) + EncodeItems(e, items[1..])
  }

  // be_fix_int_ser: the bytes of a key, or the error of its Serialize implementation.
  function BeFixIntSer(t: KeyType, k: Key): (r: StoreResult<Bytes>)
    requires HasType(t, k)
  {
    if Serializable(k) then Ok(Encode(t, k)) else Err(SerializationError("key"))
  }

  // ----- Decoding with the same options -----

  function FromBigEndian(b: Bytes): nat {
    if b == [] then 0 else 256 * FromBigEndian(b[..|b| - 1]) + b[|b| - 1]
  }

  // Reads one key of type t from the front of b and returns what is left.
  function Parse(t: KeyType, b: Bytes): Option<(Key, Bytes)>
    decreases t, 0
  {
    match t
    case Unsigned(w) =>
      if |b| < w then None else Some((Number(FromBigEndian(b[..w])), b[w..]))
    case Signed(w) =>
      if |b| < w then None else
        var n := FromBigEndian(b[..w]);
        Some((Number(if 2 * n >= Pow256(w) then n - Pow256(w) else n), b[w..]))
    case Many(e) =>
      if |b| < LENGTH_WIDTH then None else
        (match ParseItems(e, FromBigEndian(b[..LENGTH_WIDTH]), b[LENGTH_WIDTH..])
         case None => None
         case Some((items, rest)) => Some((Items(items), rest)))
    case Pair(t1, t2) =>
      match Parse(t1, b)
      case None => None
      case Some((k1, rest)) =>
        match Parse(t2, rest)
        case None => None
        case Some((k2, rest')) => Some((Both(k1, k2), rest'))
  }

  function ParseItems(e: KeyType, count: nat, b: Bytes): Option<(seq<Key>, Bytes)>
    decreases e, count + 1
  {
    if count == 0 then Some(([], b)) else
      match Parse(e, b)
      case None => None
      case Some((k, rest)) =>
        match ParseItems(e, count - 1, rest)
        case None => None
        case Some((ks, rest')) => Some(([k] + ks, rest'))
  }

  // config.deserialize: one key and no trailing bytes.
  function Deserialize(t: KeyType, b: Bytes): Option<Key> {
    match Parse(t, b)
    case None => None
    case Some((k, rest)) => if rest == [] then Some(k) else None
  }

  // ----- The order of keys, without their bytes -----

  // Numeric order on unsigned keys; lexicographic on pairs; shorter first, then lexicographic on
  // sequences. Signed keys of one sign are in numeric order and the negative ones come last.
  predicate KeyLess(t: KeyType, a: Key, b: Key)
    requires Storable(t, a) && Storable(t, b)
    decreases t, 0
  {
    match t
    case Unsigned(_) => a.n < b.n
    case Signed(_) => if (a.n < 0) == (b.n < 0) then a.n < b.n else b.n < 0
    case Many(e) => |a.items| < |b.items| || (|a.items| == |b.items| && ItemsLess(e, a.items, b.items))
    case Pair(t1, t2) => KeyLess(t1, a.fst, b.fst) || (a.fst == b.fst && KeyLess(t2, a.snd, b.snd))
  }

  predicate ItemsLess(e: KeyType, a: seq<Key>, b: seq<Key>)
    requires forall i :: 0 <= i < |a| ==> Storable(e, a[i])
    requires forall i :: 0 <= i < |b| ==> Storable(e, b[i])
    decreases e, |a| + 1
  {
    a != [] && b != [] && (KeyLess(e, a[0], b[0]) || (a[0] == b[0] && ItemsLess(e, a[1..], b[1..])))
  }

  // ----- Order embedding -----

  lemma {:induction false} BigEndianOrder(a: nat, b: nat, w: nat, ra: Bytes, rb: Bytes)
    requires a < Pow256(w) && b < Pow256(w)
    ensures LexLess(BigEndian(a, w) + ra, BigEndian(b, w) + rb) <==> a < b || (a == b && LexLess(ra, rb))
  {
    if w == 0 {
      assert [] + ra == ra && [] + rb == rb;
    } else {
      var da: Bytes, db: Bytes := [a % 256], [b % 256];
      BigEndianOrder(a / 256, b / 256, w - 1, da + ra, db + rb);
      assert BigEndian(a, w) + ra == BigEndian(a / 256, w - 1) + (da + ra);
      assert BigEndian(b, w) + rb == BigEndian(b / 256, w - 1) + (db + rb);
      assert (da + ra)[1..] == ra && (db + rb)[1..] == rb;
    }
  }

  lemma Assoc(a: Bytes, b: Bytes, c: Bytes)
    ensures (a + b) + c == a + (b + c)
  {
  }

  // Byte order is key order, and an encoding is never a proper prefix of another one: whatever
  // follows two keys in a buffer decides only between equal keys.
  lemma {:induction false} OrderEmbedding(t: KeyType, a: Key, b: Key, ra: Bytes, rb: Bytes)
    requires Storable(t, a) && Storable(t, b)
    ensures LexLess(Encode(t, a) + ra, Encode(t, b) + rb) <==> KeyLess(t, a, b) || (a == b && LexLess(ra, rb))
    decreases t, 1
  {
    match t
    case Unsigned(w) =>
      BigEndianOrder(a.n, b.n, w, ra, rb);
    case Signed(w) =>
      BigEndianOrder(TwosComplement(a.n, w), TwosComplement(b.n, w), w, ra, rb);
    case Many(e) =>
      ManyOrder(e, a.items, b.items, ra, rb);
      Assoc(BigEndian(|a.items|, LENGTH_WIDTH), EncodeItems(e, a.items), ra);
      Assoc(BigEndian(|b.items|, LENGTH_WIDTH), EncodeItems(e, b.items), rb);
    case Pair(t1, t2) =>
      OrderEmbedding(t1, a.fst, b.fst, Encode(t2, a.snd) + ra, Encode(t2, b.snd) + rb);
      OrderEmbedding(t2, a.snd, b.snd, ra, rb);
      Assoc(Encode(t1, a.fst), Encode(t2, a.snd), ra);
      Assoc(Encode(t1, b.fst), Encode(t2, b.snd), rb);
  }

  ghost predicate AllStorable(e: KeyType, items: seq<Key>) {
    forall i :: 0 <= i < |items| ==> Storable(e, items[i])
  }

  lemma {:induction false} ManyOrder(e: KeyType, a: seq<Key>, b: seq<Key>, ra: Bytes, rb: Bytes)
    requires AllStorable(e, a) && AllStorable(e, b) && |a| < Pow256(LENGTH_WIDTH) && |b| < Pow256(LENGTH_WIDTH)
    ensures LexLess(BigEndian(|a|, LENGTH_WIDTH) + (EncodeItems(e, a) + ra),
                    BigEndian(|b|, LENGTH_WIDTH) + (EncodeItems(e, b) + rb))
            <==> |a| < |b| || (|a| == |b| && (ItemsLess(e, a, b) || (a == b && LexLess(ra, rb))))
    decreases Many(e), 0
  {
    BigEndianOrder(|a|, |b|, LENGTH_WIDTH, EncodeItems(e, a) + ra, EncodeItems(e, b) + rb);
    if |a| == |b| {
      ItemsOrderEmbedding(e, a, b, ra, rb);
    }
  }

  lemma {:induction false} ItemsOrderEmbedding(e: KeyType, a: seq<Key>, b: seq<Key>, ra: Bytes, rb: Bytes)
    requires |a| == |b| && AllStorable(e, a) && AllStorable(e, b)
    ensures LexLess(EncodeItems(e, a) + ra, EncodeItems(e, b) + rb) <==>
              ItemsLess(e, a, b) || (a == b && LexLess(ra, rb))
    decreases e, |a| + 2
  {
    if a == [] {
      assert [] + ra == ra && [] + rb == rb;
    } else {
      OrderEmbedding(e, a[0], b[0], EncodeItems(e, a[1..]) + ra, EncodeItems(e, b[1..]) + rb);
      ItemsOrderEmbedding(e, a[1..], b[1..], ra, rb);
      Assoc(Encode(e, a[0]), EncodeItems(e, a[1..]), ra);
      Assoc(Encode(e, b[0]), EncodeItems(e, b[1..]), rb);
      assert a == b <==> a[0] == b[0] && a[1..] == b[1..] by {
        assert a == [a[0]] + a[1..] && b == [b[0]] + b[1..];
      }
    }
  }

  // The byte order of two encoded keys is exactly the order of the keys.
  lemma ByteOrderIsKeyOrder(t: KeyType, a: Key, b: Key)
    requires Storable(t, a) && Storable(t, b)
    ensures LexLess(Encode(t, a), Encode(t, b)) <==> KeyLess(t, a, b)
  {
    OrderEmbedding(t, a, b, [], []);
    assert Encode(t, a) + [] == Encode(t, a) && Encode(t, b) + [] == Encode(t, b);
  }

  // Two's-complement bytes sort in numeric order exactly between keys of one sign.
  lemma SignedOrderAgreesWithinOneSign(w: nat, a: Key, b: Key)
    requires Storable(Signed(w), a) && Storable(Signed(w), b) && a.n != b.n
    ensures (LexLess(Encode(Signed(w), a), Encode(Signed(w), b)) <==> a.n < b.n) <==> ((a.n < 0) <==> (b.n < 0))
  {
    ByteOrderIsKeyOrder(Signed(w), a, b);
  }

  // An i32 key of -1 sorts after an i32 key of 0.
  lemma SignedOrderFails()
    ensures Storable(Signed(4), Number(-1)) && Storable(Signed(4), Number(0))
    ensures LexLess(Encode(Signed(4), Number(0)), Encode(Signed(4), Number(-1)))
  {
    assert Pow256(4) == 256 * Pow256(3) && Pow256(3) >= 1;
    ByteOrderIsKeyOrder(Signed(4), Number(0), Number(-1));
  }

  // ----- The bytes themselves -----

  // An integer takes exactly its width.
  lemma IntegersTakeTheirWidth(w: nat, k: Key)
    ensures Storable(Unsigned(w), k) ==> |Encode(Unsigned(w), k)| == w
    ensures Storable(Signed(w), k) ==> |Encode(Signed(w), k)| == w
  {
  }

  // A sequence or string starts with its length in eight bytes; its elements follow, and nothing else.
  lemma SequencesStartWithLength(e: KeyType, items: seq<Key>)
    requires Storable(Many(e), Items(items))
    ensures AllStorable(e, items)
    ensures var bytes := Encode(Many(e), Items(items));
            && |bytes| == 8 + |EncodeItems(e, items)|
            && bytes[..8] == BigEndian(|items|, 8) && FromBigEndian(bytes[..8]) == |items|
            && bytes[8..] == EncodeItems(e, items)
  {
    BigEndianRoundTrip(|items|, 8);
    assert Storable(Many(e), Items(items));
  }

  lemma {:induction false} ItemsAreConcatenated(e: KeyType, items: seq<Key>, i: nat)
    requires AllStorable(e, items) && i < |items|
    ensures EncodeItems(e, items) == EncodeItems(e, items[..i]) + (Encode(e, items[i]) + EncodeItems(e, items[i + 1..]))
    decreases |items|
  {
    hide Encode;
    if i == 0 {
      assert items[..0] == [];
      assert EncodeItems(e, []) == [];
      assert [] + (Encode(e, items[0]) + EncodeItems(e, items[1..])) == EncodeItems(e, items);
    } else {
      var tail := items[1..];
      ItemsAreConcatenated(e, tail, i - 1);
      assert tail[..i - 1] == items[..i][1..] && tail[i..] == items[i + 1..];
      Assoc(Encode(e, items[0]), EncodeItems(e, tail[..i - 1]), Encode(e, items[i]) + EncodeItems(e, items[i + 1..]));
    }
  }

  // A pair is its two parts, one after the other.
  lemma PairsAreConcatenated(t1: KeyType, t2: KeyType, a: Key, b: Key)
    requires Storable(t1, a) && Storable(t2, b)
    ensures Storable(Pair(t1, t2), Both(a, b))
    ensures var bytes := Encode(Pair(t1, t2), Both(a, b));
            && |bytes| == |Encode(t1, a)| + |Encode(t2, b)|
            && bytes[..|Encode(t1, a)|] == Encode(t1, a) && bytes[|Encode(t1, a)|..] == Encode(t2, b)
  {
    assert Encode(Pair(t1, t2), Both(a, b)) == Encode(t1, a) + Encode(t2, b);
  }

  // What the order of bytes means for each form of key, in terms of the bytes of its parts.
  lemma UnsignedBytesSortByValue(w: nat, a: nat, b: nat)
    requires a < Pow256(w) && b < Pow256(w)
    ensures Storable(Unsigned(w), Number(a)) && Storable(Unsigned(w), Number(b))
    ensures LexLess(Encode(Unsigned(w), Number(a)), Encode(Unsigned(w), Number(b))) <==> a < b
  {
    assert Storable(Unsigned(w), Number(a)) && Storable(Unsigned(w), Number(b));
    ByteOrderIsKeyOrder(Unsigned(w), Number(a), Number(b));
  }

  lemma PairBytesSortByFirst(t1: KeyType, t2: KeyType, a: Key, b: Key)
    requires Storable(Pair(t1, t2), a) && Storable(Pair(t1, t2), b)
    ensures LexLess(Encode(Pair(t1, t2), a), Encode(Pair(t1, t2), b)) <==>
              || LexLess(Encode(t1, a.fst), Encode(t1, b.fst))
              || (a.fst == b.fst && LexLess(Encode(t2, a.snd), Encode(t2, b.snd)))
  {
    hide Encode;
    ByteOrderIsKeyOrder(Pair(t1, t2), a, b);
    ByteOrderIsKeyOrder(t1, a.fst, b.fst);
    ByteOrderIsKeyOrder(t2, a.snd, b.snd);
  }

  // The first element in which two sequences differ is smaller in the first one.
  ghost predicate DiffersBelow(e: KeyType, a: seq<Key>, b: seq<Key>, i: nat)
    requires AllStorable(e, a) && AllStorable(e, b) && i < |a| && i < |b|
  {
    a[..i] == b[..i] && LexLess(Encode(e, a[i]), Encode(e, b[i]))
  }

  lemma FirstDifferenceInTail(e: KeyType, a: seq<Key>, b: seq<Key>, i: nat)
    requires AllStorable(e, a) && AllStorable(e, b) && 0 < i < |a| && i < |b|
    ensures DiffersBelow(e, a, b, i) <==> a[0] == b[0] && DiffersBelow(e, a[1..], b[1..], i - 1)
  {
    hide Encode;
    assert a[..i] == [a[0]] + a[1..][..i - 1] && b[..i] == [b[0]] + b[1..][..i - 1];
    assert a[..i] == b[..i] ==> a[..i][0] == b[..i][0] && a[..i][1..] == b[..i][1..];
    assert a[..i][1..] == a[1..][..i - 1] && b[..i][1..] == b[1..][..i - 1];
  }

  lemma FirstDifferenceAtHead(e: KeyType, a: seq<Key>, b: seq<Key>)
    requires AllStorable(e, a) && AllStorable(e, b) && a != [] && b != []
    ensures DiffersBelow(e, a, b, 0) <==> KeyLess(e, a[0], b[0])
  {
    ByteOrderIsKeyOrder(e, a[0], b[0]);
    assert a[..0] == b[..0];
  }

  lemma {:induction false} ItemsDifferBelow(e: KeyType, a: seq<Key>, b: seq<Key>)
    requires |a| == |b| && AllStorable(e, a) && AllStorable(e, b)
    ensures ItemsLess(e, a, b) <==> exists i :: 0 <= i < |a| && DiffersBelow(e, a, b, i)
    decreases |a|
  {
    hide DiffersBelow, KeyLess, Encode;
    if a != [] {
      var a', b' := a[1..], b[1..];
      ItemsDifferBelow(e, a', b');
      FirstDifferenceAtHead(e, a, b);
      forall i | 0 < i < |a| ensures DiffersBelow(e, a, b, i) <==> a[0] == b[0] && DiffersBelow(e, a', b', i - 1) {
        FirstDifferenceInTail(e, a, b, i);
      }
      if i :| 0 <= i < |a'| && DiffersBelow(e, a', b', i) && a[0] == b[0] {
        assert DiffersBelow(e, a, b, i + 1);
      }
    }
  }

  // Sequences and strings sort by length first, and then by the first difference.
  lemma SequenceBytesSortByLength(e: KeyType, a: seq<Key>, b: seq<Key>)
    requires Storable(Many(e), Items(a)) && Storable(Many(e), Items(b))
    ensures AllStorable(e, a) && AllStorable(e, b)
    ensures LexLess(Encode(Many(e), Items(a)), Encode(Many(e), Items(b))) <==>
              || |a| < |b|
              || (|a| == |b| && exists i :: 0 <= i < |a| && DiffersBelow(e, a, b, i))
  {
    SequencesStartWithLength(e, a);
    SequencesStartWithLength(e, b);
    ByteOrderIsKeyOrder(Many(e), Items(a), Items(b));
    if |a| == |b| {
      ItemsDifferBelow(e, a, b);
    }
  }

  // ----- Round trip -----

  lemma {:induction false} BigEndianRoundTrip(n: nat, w: nat)
    requires n < Pow256(w)
    ensures FromBigEndian(BigEndian(n, w)) == n
  {
    if w > 0 {
      BigEndianRoundTrip(n / 256, w - 1);
      assert BigEndian(n, w)[..w - 1] == BigEndian(n / 256, w - 1);
    }
  }

  lemma TakeDrop(a: Bytes, rest: Bytes)
    ensures (a + rest)[..|a|] == a && (a + rest)[|a|..] == rest
  {
  }

  lemma {:induction false} ParseInvertsEncode(t: KeyType, k: Key, rest: Bytes)
    requires Storable(t, k)
    ensures Parse(t, Encode(t, k) + rest) == Some((k, rest))
    decreases t, 0
  {
    match t
    case Unsigned(w) =>
      BigEndianRoundTrip(k.n, w);
      TakeDrop(BigEndian(k.n, w), rest);
    case Signed(w) =>
      BigEndianRoundTrip(TwosComplement(k.n, w), w);
      TakeDrop(BigEndian(TwosComplement(k.n, w), w), rest);
    case Many(e) =>
      var length := BigEndian(|k.items|, LENGTH_WIDTH);
      BigEndianRoundTrip(|k.items|, LENGTH_WIDTH);
      Assoc(length, EncodeItems(e, k.items), rest);
      TakeDrop(length, EncodeItems(e, k.items) + rest);
      ParseInvertsEncodeItems(e, k.items, rest);
    case Pair(t1, t2) =>
      Assoc(Encode(t1, k.fst), Encode(t2, k.snd), rest);
      ParseInvertsEncode(t1, k.fst, Encode(t2, k.snd) + rest);
      ParseInvertsEncode(t2, k.snd, rest);
  }

  lemma {:induction false} ParseInvertsEncodeItems(e: KeyType, items: seq<Key>, rest: Bytes)
    requires AllStorable(e, items)
    ensures ParseItems(e, |items|, EncodeItems(e, items) + rest) == Some((items, rest))
    decreases e, |items| + 1
  {
    if items == [] {
      assert [] + rest == rest;
    } else {
      Assoc(Encode(e, items[0]), EncodeItems(e, items[1..]), rest);
      ParseInvertsEncode(e, items[0], EncodeItems(e, items[1..]) + rest);
      ParseInvertsEncodeItems(e, items[1..], rest);
      assert items == [items[0]] + items[1..];
    }
  }

  lemma RoundTrip(t: KeyType, k: Key)
    requires Storable(t, k)
    ensures Deserialize(t, Encode(t, k)) == Some(k)
  {
    ParseInvertsEncode(t, k, []);
    assert Encode(t, k) + [] == Encode(t, k);
  }

  // ----- Nothing else decodes -----

  lemma {:induction false} FromBigEndianFits(b: Bytes)
    ensures FromBigEndian(b) < Pow256(|b|) && BigEndian(FromBigEndian(b), |b|) == b
  {
    if b != [] {
      var init := b[..|b| - 1];
      FromBigEndianFits(init);
      assert FromBigEndian(b) / 256 == FromBigEndian(init) && FromBigEndian(b) % 256 == b[|b| - 1];
      assert b == init + [b[|b| - 1]];
    }
  }

  lemma SignedFits(w: nat, b: Bytes)
    requires |b| == w
    ensures var n := FromBigEndian(b);
            var k := if 2 * n >= Pow256(w) then n - Pow256(w) else n;
            -Pow256(w) <= 2 * k < Pow256(w) && TwosComplement(k, w) == n
  {
    FromBigEndianFits(b);
  }

  lemma ParsedIntegerIsEncoded(t: KeyType, b: Bytes)
    requires (t.Unsigned? || t.Signed?) && Parse(t, b).Some?
    ensures var (k, rest) := Parse(t, b).value;
            Storable(t, k) && b == Encode(t, k) + rest
  {
    hide BigEndian, FromBigEndian, Pow256;
    var w := t.width;
    FromBigEndianFits(b[..w]);
    if t.Signed? {
      SignedFits(w, b[..w]);
    }
    assert b == b[..w] + b[w..];
  }

  // What is read from the front of a buffer is a storable key, and its encoding is what was read.
  lemma {:induction false} ParsedIsEncoded(t: KeyType, b: Bytes)
    requires Parse(t, b).Some?
    ensures var (k, rest) := Parse(t, b).value;
            Storable(t, k) && b == Encode(t, k) + rest
    decreases t, 0
  {
    hide BigEndian, FromBigEndian, Pow256;
    match t
    case Unsigned(_) =>
      ParsedIntegerIsEncoded(t, b);
    case Signed(_) =>
      ParsedIntegerIsEncoded(t, b);
    case Many(e) =>
      var length := b[..LENGTH_WIDTH];
      FromBigEndianFits(length);
      var (items, rest) := ParseItems(e, FromBigEndian(length), b[LENGTH_WIDTH..]).value;
      ParsedItemsAreEncoded(e, FromBigEndian(length), b[LENGTH_WIDTH..]);
      Assoc(length, EncodeItems(e, items), rest);
    case Pair(t1, t2) =>
      ParsedIsEncoded(t1, b);
      var (k1, rest1) := Parse(t1, b).value;
      ParsedIsEncoded(t2, rest1);
      var (k2, rest2) := Parse(t2, rest1).value;
      Assoc(Encode(t1, k1), Encode(t2, k2), rest2);
  }

  lemma {:induction false} ParsedItemsAreEncoded(e: KeyType, count: nat, b: Bytes)
    requires ParseItems(e, count, b).Some?
    ensures var (items, rest) := ParseItems(e, count, b).value;
            |items| == count && AllStorable(e, items) && b == EncodeItems(e, items) + rest
    decreases e, count + 1
  {
    if count == 0 {
      assert b == [] + b;
    } else {
      ParsedIsEncoded(e, b);
      var (k, rest) := Parse(e, b).value;
      ParsedItemsAreEncoded(e, count - 1, rest);
      var (ks, rest') := ParseItems(e, count - 1, rest).value;
      assert ([k] + ks)[1..] == ks;
      Assoc(Encode(e, k), EncodeItems(e, ks), rest');
    }
  }

  // Bytes decode to a key if and only if they are its encoding: nothing may follow it.
  lemma DecodesExactlyEncodings(t: KeyType, b: Bytes, k: Key)
    ensures Deserialize(t, b) == Some(k) <==> Storable(t, k) && Encode(t, k) == b
  {
    if Storable(t, k) && Encode(t, k) == b {
      RoundTrip(t, k);
    }
    if Deserialize(t, b) == Some(k) {
      ParsedIsEncoded(t, b);
      assert Encode(t, k) + [] == Encode(t, k);
    }
  }

  // ----- LexLess is a strict total order -----

  lemma {:induction false} LexTransitive(a: Bytes, b: Bytes, c: Bytes)
    requires LexLess(a, b) && LexLess(b, c)
    ensures LexLess(a, c)
  {
    if a != [] && a[0] == b[0] && b[0] == c[0] {
      LexTransitive(a[1..], b[1..], c[1..]);
    }
  }

  lemma {:induction false} LexTotal(a: Bytes, b: Bytes)
    ensures LexLess(a, b) || a == b || LexLess(b, a)
    ensures !(LexLess(a, b) && LexLess(b, a)) && !LexLess(a, a)
  {
    if a != [] && b != [] && a[0] == b[0] {
      LexTotal(a[1..], b[1..]);
      assert a == [a[0]] + a[1..] && b == [b[0]] + b[1..];
    }
    if a != [] {
      LexIrreflexive(a);
    }
  }

  lemma {:induction false} LexIrreflexive(a: Bytes)
    ensures !LexLess(a, a)
  {
    if a != [] {
      LexIrreflexive(a[1..]);
    }
  }
}
