// Deep heap measurement: the len * constant shortcuts of collections against full traversal, and the
// counting of shared allocations through have_seen_ptr. Types and values are embedded, so that every
// nesting of the measured types is covered at once.
module MallocSize {
  import opened Wrappers

  type Ptr = nat

  datatype Ty =
    | Leaf(constant: Option<nat>)        // a type with its own implementation; Some(0) for plain data
    | Reference                          // &T
    | Tuple(fields: seq<Ty>)
    | OptionOf(t: Ty)
    | ResultOf(ok: Ty, err: Ty)
    | CellOf(t: Ty)                      // Cell, RefCell, Reverse
    | BoxOf(t: Ty)
    | CowOf(t: Ty)
    | SliceOf(t: Ty)
    | CollectionOf(t: Ty)                // Vec, VecDeque, HashSet, BTreeSet
    | MapOf(k: Ty, v: Ty)                // HashMap, BTreeMap
    | SharedOf(t: Ty)                    // an Arc<T> field measured with conditional_size_of

  // Shallow sizes, which the allocator or an estimate supplies, are part of the value.
  datatype Value =
    | LeafValue(size: nat)
    | Borrowed                                         // a reference, or a borrowed Cow
    | TupleValue(parts: seq<Value>)
    | Nothing                                          // None
    | Just(value: Value)                               // Some, and an owned Cow
    | OkValue(value: Value) | ErrValue(value: Value)
    | CellValue(value: Value)
    | BoxValue(shallow: nat, value: Value)
    | Elements(shallow: nat, elems: seq<Value>)        // in iteration order; a slice has shallow 0
    | Entries(shallow: nat, keys: seq<Value>, values: seq<Value>)
    | Shared(ptr: Ptr, shallow: nat, value: Value)

  // The law for leaves is that a declared constant is the size of every value.
  predicate HasType(t: Ty, v: Value)
    decreases t
  {
    match t
    case Leaf(c) => v.LeafValue? && (c.Some? ==> v.size == c.value)
    case Reference => v.Borrowed?
    case Tuple(ts) => v.TupleValue? && |v.parts| == |ts| && forall i :: 0 <= i < |ts| ==> HasType(ts[i], v.parts[i])
    case OptionOf(e) => v.Nothing? || (v.Just? && HasType(e, v.value))
    case ResultOf(ok, err) => (v.OkValue? && HasType(ok, v.value)) || (v.ErrValue? && HasType(err, v.value))
    case CellOf(e) => v.CellValue? && HasType(e, v.value)
    case BoxOf(e) => v.BoxValue? && HasType(e, v.value)
    case CowOf(e) => v.Borrowed? || (v.Just? && HasType(e, v.value))
    case SliceOf(e) => v.Elements? && v.shallow == 0 && forall i :: 0 <= i < |v.elems| ==> HasType(e, v.elems[i])
    case CollectionOf(e) => v.Elements? && forall i :: 0 <= i < |v.elems| ==> HasType(e, v.elems[i])
    case MapOf(k, e) =>
      && v.Entries? && |v.keys| == |v.values|
      && (forall i :: 0 <= i < |v.keys| ==> HasType(k, v.keys[i]))
      && (forall i :: 0 <= i < |v.values| ==> HasType(e, v.values[i]))
    case SharedOf(e) => v.Shared? && HasType(e, v.value)
  }

  // ----- constant_size -----

  function Plus(a: Option<nat>, b: Option<nat>): Option<nat> {
    if a.Some? && b.Some? then Some(a.value + b.value) else None
  }

  function Constant(t: Ty): Option<nat>
    decreases t, 0
  {
    match t
    case Leaf(c) => c
    case Reference => Some(0)
    case Tuple(ts) => ConstantFields(ts, Some(0))
    case OptionOf(e) => (match Constant(e) case Some(c) => if c == 0 then Some(c) else None case None => None)
    case ResultOf(ok, err) =>
      if Constant(ok).Some? && Constant(err) == Constant(ok) then Constant(err) else None
    case CellOf(e) => Constant(e)
    case _ => None
  }

  function ConstantFields(ts: seq<Ty>, result: Option<nat>): Option<nat>
    decreases ts, 0
  {
    if ts == [] then result else ConstantFields(ts[1..], Plus(result, Constant(ts[0])))
  }

  // ----- The two measurements -----

  // A size, and the pointers seen once it has been measured.
  datatype Measured = Measured(size: nat, seen: set<Ptr>)

  type Children = seq<(Ty, Value)>

  function Zip(ts: seq<Ty>, vs: seq<Value>): (c: Children)
    requires |ts| == |vs|
    ensures |c| == |ts| && forall i :: 0 <= i < |c| ==> c[i] == (ts[i], vs[i])
  {
    seq(|ts|, i requires 0 <= i < |ts| => (ts[i], vs[i]))
  }

  function Each(t: Ty, vs: seq<Value>): (c: Children)
    ensures |c| == |vs| && forall i :: 0 <= i < |c| ==> c[i] == (t, vs[i])
  {
    seq(|vs|, i requires 0 <= i < |vs| => (t, vs[i]))
  }

  function Interleave(k: Ty, e: Ty, keys: seq<Value>, values: seq<Value>): (c: Children)
    requires |keys| == |values|
    ensures |c| == 2 * |keys|
    ensures forall i :: 0 <= i < |keys| ==> c[2 * i] == (k, keys[i]) && c[2 * i + 1] == (e, values[i])
  {
    if keys == [] then [] else
      var rest := Interleave(k, e, keys[1..], values[1..]);
      [(k, keys[0]), (e, values[0])] + rest
  }

  // The allocation of the value itself, without what it holds.
  function OwnShallow(v: Value): nat {
    match v
    case LeafValue(n) => n
    case BoxValue(n, _) => n
    case Elements(n, _) => n
    case Entries(n, _, _) => n
    case _ => 0
  }

  // The values that a measured value holds, in the order in which they are measured.
  function Held(t: Ty, v: Value): Children
    requires HasType(t, v) && !t.SharedOf?
  {
    match t
    case Leaf(_) => []
    case Reference => []
    case Tuple(ts) => Zip(ts, v.parts)
    case OptionOf(e) => if v.Nothing? then [] else [(e, v.value)]
    case ResultOf(ok, err) => if v.OkValue? then [(ok, v.value)] else [(err, v.value)]
    case CellOf(e) => [(e, v.value)]
    case BoxOf(e) => [(e, v.value)]
    case CowOf(e) => if v.Borrowed? then [] else [(e, v.value)]
    case SliceOf(e) => Each(e, v.elems)
    case CollectionOf(e) => Each(e, v.elems)
    case MapOf(k, e) => Interleave(k, e, v.keys, v.values)
  }

  ghost predicate AllTyped(c: Children) {
    forall i :: 0 <= i < |c| ==> HasType(c[i].0, c[i].1)
  }

  lemma HeldIsSmaller(t: Ty, v: Value)
    requires HasType(t, v) && !t.SharedOf?
    ensures AllTyped(Held(t, v)) && forall i :: 0 <= i < |Held(t, v)| ==> Held(t, v)[i].0 < t
  {
    hide Interleave;
    if t.MapOf? {
      MapHeldIsSmaller(t, v);
    }
  }

  lemma MapHeldIsSmaller(t: Ty, v: Value)
    requires HasType(t, v) && t.MapOf?
    ensures AllTyped(Held(t, v)) && forall i :: 0 <= i < |Held(t, v)| ==> Held(t, v)[i].0 < t
  {
    hide Interleave;
    var held := Held(t, v);
    forall i | 0 <= i < |held| ensures HasType(held[i].0, held[i].1) && held[i].0 < t {
      InterleavedAt(t.k, t.v, v.keys, v.values, i);
    }
  }

  lemma InterleavedAt(k: Ty, e: Ty, keys: seq<Value>, values: seq<Value>, i: nat)
    requires |keys| == |values| && i < 2 * |keys|
    ensures Interleave(k, e, keys, values)[i] == if i % 2 == 0 then (k, keys[i / 2]) else (e, values[i / 2])
  {
    hide Interleave;
    var j := i / 2;
    assert Interleave(k, e, keys, values)[2 * j] == (k, keys[j]);
    assert i == 2 * j || i == 2 * j + 1;
  }

  // Measuring every value.
  ghost function Full(t: Ty, v: Value, seen: set<Ptr>): Measured
    requires HasType(t, v)
    decreases t, 1, 0
  {
    if t.SharedOf? then
      if v.ptr in seen then Measured(0, seen)
      else var m := Full(t.t, v.value, seen + {v.ptr}); m.(size := v.shallow + m.size)
    else
      HeldIsSmaller(t, v);
      var m := FullAll(t, Held(t, v), seen);
      m.(size := OwnShallow(v) + m.size)
  }

  ghost function FullAll(t: Ty, c: Children, seen: set<Ptr>): Measured
    requires AllTyped(c) && forall i :: 0 <= i < |c| ==> c[i].0 < t
    decreases t, 0, |c|
  {
    if c == [] then Measured(0, seen) else
      var first := Full(c[0].0, c[0].1, seen);
      var rest := FullAll(t, c[1..], first.seen);
      Measured(first.size + rest.size, rest.seen)
  }

  // The total for the elements of a collection of constant element size.
  function Shortcut(t: Ty, v: Value): Option<nat>
    requires HasType(t, v)
  {
    match t
    case SliceOf(e) => if Constant(e).Some? then Some(|v.elems| * Constant(e).value) else None
    case CollectionOf(e) => if Constant(e).Some? then Some(|v.elems| * Constant(e).value) else None
    case MapOf(k, e) =>
      if Constant(k).Some? && Constant(e).Some? then Some(|v.keys| * (Constant(k).value + Constant(e).value)) else None
    case _ => None
  }

  // Measuring as the implementations do, with the shortcuts.
  ghost function Fast(t: Ty, v: Value, seen: set<Ptr>): Measured
    requires HasType(t, v)
    decreases t, 1, 0
  {
    if t.SharedOf? then
      if v.ptr in seen then Measured(0, seen)
      else var m := Fast(t.t, v.value, seen + {v.ptr}); m.(size := v.shallow + m.size)
    else if Shortcut(t, v).Some? then Measured(OwnShallow(v) + Shortcut(t, v).value, seen)
    else
      HeldIsSmaller(t, v);
      var m := FastAll(t, Held(t, v), seen);
      m.(size := OwnShallow(v) + m.size)
  }

  ghost function FastAll(t: Ty, c: Children, seen: set<Ptr>): Measured
    requires AllTyped(c) && forall i :: 0 <= i < |c| ==> c[i].0 < t
    decreases t, 0, |c|
  {
    if c == [] then Measured(0, seen) else
      var first := Fast(c[0].0, c[0].1, seen);
      var rest := FastAll(t, c[1..], first.seen);
      Measured(first.size + rest.size, rest.seen)
  }

  // ----- A constant size is the size of every value -----

  lemma {:induction false} ConstantIsExact(t: Ty, v: Value, seen: set<Ptr>)
    requires HasType(t, v) && Constant(t).Some?
    ensures Full(t, v, seen) == Measured(Constant(t).value, seen)
    decreases t, 1, 0
  {
    HeldIsSmaller(t, v);
    match t
    case Leaf(_) =>
    case Reference =>
    case Tuple(ts) =>
      ConstantFieldsAreExact(t, ts, v.parts, 0, seen);
    case OptionOf(e) =>
      if v.Just? { ConstantIsExact(e, v.value, seen); OneChild(t, e, v.value, seen); }
    case ResultOf(ok, err) =>
      var e := if v.OkValue? then ok else err;
      ConstantIsExact(e, v.value, seen);
      OneChild(t, e, v.value, seen);
    case CellOf(e) =>
      ConstantIsExact(e, v.value, seen);
      OneChild(t, e, v.value, seen);
  }

  lemma OneChild(t: Ty, e: Ty, v: Value, seen: set<Ptr>)
    requires HasType(e, v) && e < t
    ensures FullAll(t, [(e, v)], seen) == Full(e, v, seen)
  {
    assert [(e, v)][1..] == [];
  }

  lemma {:induction false} ConstantFieldsAreExact(t: Ty, ts: seq<Ty>, vs: seq<Value>, before: nat, seen: set<Ptr>)
    requires |ts| == |vs| && forall i :: 0 <= i < |ts| ==> ts[i] < t && HasType(ts[i], vs[i])
    requires ConstantFields(ts, Some(before)).Some?
    ensures Measured(before + FullAll(t, Zip(ts, vs), seen).size, FullAll(t, Zip(ts, vs), seen).seen)
            == Measured(ConstantFields(ts, Some(before)).value, seen)
    decreases t, 0, |ts|
  {
    if ts != [] {
      if Constant(ts[0]).None? {
        NoneStaysNone(ts[1..]);
      }
      ConstantIsExact(ts[0], vs[0], seen);
      ConstantFieldsAreExact(t, ts[1..], vs[1..], before + Constant(ts[0]).value, seen);
      assert Zip(ts, vs)[1..] == Zip(ts[1..], vs[1..]);
    }
  }

  lemma {:induction false} NoneStaysNone(ts: seq<Ty>)
    ensures ConstantFields(ts, None).None?
  {
    if ts != [] {
      NoneStaysNone(ts[1..]);
    }
  }

  // ----- The shortcuts compute what traversal computes -----

  lemma {:induction false} EachIsExact(t: Ty, e: Ty, vs: seq<Value>, seen: set<Ptr>)
    requires e < t && Constant(e).Some? && forall i :: 0 <= i < |vs| ==> HasType(e, vs[i])
    ensures FullAll(t, Each(e, vs), seen) == Measured(|vs| * Constant(e).value, seen)
    decreases |vs|
  {
    if vs != [] {
      ConstantIsExact(e, vs[0], seen);
      EachIsExact(t, e, vs[1..], seen);
      assert Each(e, vs)[1..] == Each(e, vs[1..]);
      Distribute(|vs| - 1, Constant(e).value);
    }
  }

  lemma {:induction false} EntriesAreExact(t: Ty, k: Ty, e: Ty, keys: seq<Value>, values: seq<Value>, seen: set<Ptr>)
    requires k < t && e < t && Constant(k).Some? && Constant(e).Some? && |keys| == |values|
    requires forall i :: 0 <= i < |keys| ==> HasType(k, keys[i]) && HasType(e, values[i])
    requires AllTyped(Interleave(k, e, keys, values)) && forall i :: 0 <= i < 2 * |keys| ==>
               Interleave(k, e, keys, values)[i].0 < t
    ensures FullAll(t, Interleave(k, e, keys, values), seen) ==
            Measured(|keys| * (Constant(k).value + Constant(e).value), seen)
    decreases |keys|
  {
    if keys != [] {
      var c := Interleave(k, e, keys, values);
      ConstantIsExact(k, keys[0], seen);
      ConstantIsExact(e, values[0], seen);
      assert c[1..][1..] == Interleave(k, e, keys[1..], values[1..]);
      assert c[0] == (k, keys[0]) && c[1..][0] == (e, values[0]);
      EntriesAreExact(t, k, e, keys[1..], values[1..], seen);
      Distribute(|keys| - 1, Constant(k).value + Constant(e).value);
    }
  }

  lemma Distribute(n: nat, c: nat)
    ensures (n + 1) * c == n * c + c
  {
  }

  // The fast measurement equals the full traversal, for every type, value and set of seen pointers.
  lemma {:induction false} FastIsFull(t: Ty, v: Value, seen: set<Ptr>)
    requires HasType(t, v)
    ensures Fast(t, v, seen) == Full(t, v, seen)
    decreases t, 1, 1
  {
    hide Constant, Interleave;
    if t.SharedOf? {
      if v.ptr !in seen {
        FastIsFull(t.t, v.value, seen + {v.ptr});
      }
    } else {
      HeldIsSmaller(t, v);
      if Shortcut(t, v).None? {
        FastAllIsFullAll(t, Held(t, v), seen);
      } else {
        ShortcutIsExact(t, v, seen);
      }
    }
  }

  lemma ShortcutIsExact(t: Ty, v: Value, seen: set<Ptr>)
    requires HasType(t, v) && Shortcut(t, v).Some?
    ensures !t.SharedOf? && Full(t, v, seen) == Measured(OwnShallow(v) + Shortcut(t, v).value, seen)
  {
    hide Constant;
    HeldIsSmaller(t, v);
    if t.MapOf? {
      EntriesAreExact(t, t.k, t.v, v.keys, v.values, seen);
    } else {
      EachIsExact(t, t.t, v.elems, seen);
    }
  }

  lemma {:induction false} FastAllIsFullAll(t: Ty, c: Children, seen: set<Ptr>)
    requires AllTyped(c) && forall i :: 0 <= i < |c| ==> c[i].0 < t
    ensures FastAll(t, c, seen) == FullAll(t, c, seen)
    decreases t, 0, |c|
  {
    if c != [] {
      FastIsFull(c[0].0, c[0].1, seen);
      FastAllIsFullAll(t, c[1..], Full(c[0].0, c[0].1, seen).seen);
    }
  }

  // ----- What a value occupies, from its structure alone -----

  // Every allocation of a value at every depth, apart from the shared ones.
  function Allocated(v: Value): nat {
    match v
    case LeafValue(n) => n
    case Borrowed => 0
    case TupleValue(parts) => AllocatedAll(parts)
    case Nothing => 0
    case Just(w) => Allocated(w)
    case OkValue(w) => Allocated(w)
    case ErrValue(w) => Allocated(w)
    case CellValue(w) => Allocated(w)
    case BoxValue(n, w) => n + Allocated(w)
    case Elements(n, elems) => n + AllocatedAll(elems)
    case Entries(n, keys, values) => n + AllocatedAll(keys) + AllocatedAll(values)
    case Shared(_, _, _) => 0
  }

  function AllocatedAll(vs: seq<Value>): nat {
    if vs == [] then 0 else Allocated(vs[0]) + AllocatedAll(vs[1..])
  }

  // Every shared allocation that a value leads to, at any depth.
  function Reached(v: Value): set<Ptr> {
    match v
    case LeafValue(_) => {}
    case Borrowed => {}
    case TupleValue(parts) => ReachedAll(parts)
    case Nothing => {}
    case Just(w) => Reached(w)
    case OkValue(w) => Reached(w)
    case ErrValue(w) => Reached(w)
    case CellValue(w) => Reached(w)
    case BoxValue(_, w) => Reached(w)
    case Elements(_, elems) => ReachedAll(elems)
    case Entries(_, keys, values) => ReachedAll(keys) + ReachedAll(values)
    case Shared(p, _, w) => {p} + Reached(w)
  }

  function ReachedAll(vs: seq<Value>): set<Ptr> {
    if vs == [] then {} else Reached(vs[0]) + ReachedAll(vs[1..])
  }

  function AllocatedIn(c: Children): nat {
    if c == [] then 0 else Allocated(c[0].1) + AllocatedIn(c[1..])
  }

  function ReachedIn(c: Children): set<Ptr> {
    if c == [] then {} else Reached(c[0].1) + ReachedIn(c[1..])
  }

  lemma {:induction false} ChildrenOf(c: Children, vs: seq<Value>)
    requires |c| == |vs| && forall i :: 0 <= i < |c| ==> c[i].1 == vs[i]
    ensures AllocatedIn(c) == AllocatedAll(vs) && ReachedIn(c) == ReachedAll(vs)
  {
    if c != [] {
      ChildrenOf(c[1..], vs[1..]);
    }
  }

  lemma {:induction false} InterleavedChildren(k: Ty, e: Ty, keys: seq<Value>, values: seq<Value>)
    requires |keys| == |values|
    ensures AllocatedIn(Interleave(k, e, keys, values)) == AllocatedAll(keys) + AllocatedAll(values)
    ensures ReachedIn(Interleave(k, e, keys, values)) == ReachedAll(keys) + ReachedAll(values)
  {
    if keys != [] {
      var c := Interleave(k, e, keys, values);
      InterleavedChildren(k, e, keys[1..], values[1..]);
      assert c == [(k, keys[0]), (e, values[0])] + Interleave(k, e, keys[1..], values[1..]);
      assert c[1..][1..] == Interleave(k, e, keys[1..], values[1..]) && c[1..][0] == (e, values[0]);
    }
  }

  // A value occupies its own allocation and what the values occupy that a measurement visits.
  lemma HeldIsAllocated(t: Ty, v: Value)
    requires HasType(t, v) && !t.SharedOf?
    ensures Allocated(v) == OwnShallow(v) + AllocatedIn(Held(t, v))
    ensures Reached(v) == ReachedIn(Held(t, v))
  {
    hide Interleave;
    var held := Held(t, v);
    if |held| == 1 {
      assert held[1..] == [];
    }
    match t {
      case Tuple(ts) => ChildrenOf(Held(t, v), v.parts);
      case SliceOf(_) => ChildrenOf(Held(t, v), v.elems);
      case CollectionOf(_) => ChildrenOf(Held(t, v), v.elems);
      case MapOf(k, e) => InterleavedChildren(k, e, v.keys, v.values);
      case _ =>
    }
  }

  // ----- constant_size is exact -----

  // The types whose values hold no collection, box or shared pointer of their own.
  predicate Plain(t: Ty)
    decreases t
  {
    match t
    case Leaf(_) => true
    case Reference => true
    case Tuple(ts) => forall i :: 0 <= i < |ts| ==> Plain(ts[i])
    case OptionOf(e) => Plain(e)
    case ResultOf(ok, err) => Plain(ok) && Plain(err)
    case CellOf(e) => Plain(e)
    case _ => false
  }

  lemma {:induction false} PlainIsAllocated(t: Ty, v: Value, seen: set<Ptr>)
    requires HasType(t, v) && Plain(t)
    ensures Full(t, v, seen) == Measured(Allocated(v), seen)
    decreases t, 1, 0
  {
    hide Allocated;
    HeldIsSmaller(t, v);
    HeldIsAllocated(t, v);
    PlainChildrenAreAllocated(t, Held(t, v), seen);
  }

  lemma {:induction false} PlainChildrenAreAllocated(t: Ty, c: Children, seen: set<Ptr>)
    requires AllTyped(c) && forall i :: 0 <= i < |c| ==> c[i].0 < t && Plain(c[i].0)
    ensures FullAll(t, c, seen) == Measured(AllocatedIn(c), seen)
    decreases t, 0, |c|
  {
    hide Allocated;
    if c != [] {
      PlainIsAllocated(c[0].0, c[0].1, seen);
      PlainChildrenAreAllocated(t, c[1..], seen);
    }
  }

  function Sample(t: Ty): (v: Value)
    requires Plain(t)
    ensures HasType(t, v)
    decreases t
  {
    match t
    case Leaf(c) => LeafValue(if c.Some? then c.value else 0)
    case Reference => Borrowed
    case Tuple(ts) => TupleValue(seq(|ts|, i requires 0 <= i < |ts| => Sample(ts[i])))
    case OptionOf(_) => Nothing
    case ResultOf(ok, _) => OkValue(Sample(ok))
    case CellOf(e) => CellValue(Sample(e))
  }

  // Plain types without a constant size have values of different sizes.
  lemma {:induction false} NoConstantVaries(t: Ty) returns (v: Value, w: Value)
    requires Plain(t) && Constant(t).None?
    ensures HasType(t, v) && HasType(t, w) && Allocated(v) != Allocated(w)
    decreases t
  {
    match t {
      case Leaf(_) =>
        v, w := LeafValue(0), LeafValue(1);
      case Tuple(ts) =>
        var i := VaryingField(ts, 0);
        var a, b := NoConstantVaries(ts[i]);
        var parts := Sample(t).parts;
        v, w := TupleValue(parts[i := a]), TupleValue(parts[i := b]);
        OnePartDiffers(parts, i, a, b);
      case OptionOf(e) =>
        if Constant(e).None? {
          var a, b := NoConstantVaries(e);
          v, w := Just(a), Just(b);
        } else {
          v, w := Nothing, Just(Sample(e));
          ConstantIsAllocated(e, Sample(e));
        }
      case ResultOf(ok, err) =>
        if Constant(ok).None? {
          var a, b := NoConstantVaries(ok);
          v, w := OkValue(a), OkValue(b);
        } else if Constant(err).None? {
          var a, b := NoConstantVaries(err);
          v, w := ErrValue(a), ErrValue(b);
        } else {
          v, w := OkValue(Sample(ok)), ErrValue(Sample(err));
          ConstantIsAllocated(ok, Sample(ok));
          ConstantIsAllocated(err, Sample(err));
        }
      case CellOf(e) =>
        var a, b := NoConstantVaries(e);
        v, w := CellValue(a), CellValue(b);
    }
  }

  lemma ConstantIsAllocated(t: Ty, v: Value)
    requires HasType(t, v) && Plain(t) && Constant(t).Some?
    ensures Constant(t) == Some(Allocated(v))
  {
    ConstantIsExact(t, v, {});
    PlainIsAllocated(t, v, {});
  }

  lemma {:induction false} VaryingField(ts: seq<Ty>, before: nat) returns (i: nat)
    requires ConstantFields(ts, Some(before)).None?
    ensures i < |ts| && Constant(ts[i]).None?
  {
    if Constant(ts[0]).None? {
      i := 0;
    } else {
      i := VaryingField(ts[1..], before + Constant(ts[0]).value);
      i := i + 1;
    }
  }

  lemma {:induction false} OnePartDiffers(parts: seq<Value>, i: nat, a: Value, b: Value)
    requires i < |parts| && Allocated(a) != Allocated(b)
    ensures AllocatedAll(parts[i := a]) != AllocatedAll(parts[i := b])
  {
    if i > 0 {
      OnePartDiffers(parts[1..], i - 1, a, b);
      assert parts[i := a][1..] == parts[1..][i - 1 := a] && parts[i := b][1..] == parts[1..][i - 1 := b];
    } else {
      assert parts[0 := a][1..] == parts[1..] && parts[0 := b][1..] == parts[1..];
    }
  }

  // A plain type has a constant size if and only if all its values have one size, which it then is.
  lemma ConstantIffUniform(t: Ty)
    requires Plain(t)
    ensures Constant(t).Some? <==> forall v, w :: HasType(t, v) && HasType(t, w) ==> Allocated(v) == Allocated(w)
    ensures forall v :: HasType(t, v) && Constant(t).Some? ==> Constant(t).value == Allocated(v)
  {
    if Constant(t).Some? {
      forall v | HasType(t, v) ensures Constant(t).value == Allocated(v) {
        ConstantIsAllocated(t, v);
      }
    } else {
      var v, w := NoConstantVaries(t);
    }
  }

  // ----- Shared allocations -----

  // What each address holds: an allocation of some shallow size and a value of some type.
  datatype Cell = Cell(t: Ty, shallow: nat, value: Value)

  type Heap = map<Ptr, Cell>

  ghost predicate TypedHeap(heap: Heap) {
    forall p :: p in heap ==> HasType(heap[p].t, heap[p].value)
  }

  // Equal pointers lead to equal allocations.
  ghost predicate Consistent(heap: Heap, t: Ty, v: Value)
    requires HasType(t, v)
    decreases t, 1, 0
  {
    if t.SharedOf? then v.ptr in heap && heap[v.ptr] == Cell(t.t, v.shallow, v.value) && Consistent(heap, t.t, v.value)
    else
      HeldIsSmaller(t, v);
      ConsistentAll(heap, t, Held(t, v))
  }

  ghost predicate ConsistentAll(heap: Heap, t: Ty, c: Children)
    requires AllTyped(c) && forall i :: 0 <= i < |c| ==> c[i].0 < t
    decreases t, 0, |c|
  {
    c != [] ==> Consistent(heap, c[0].0, c[0].1) && ConsistentAll(heap, t, c[1..])
  }

  // One allocation, counted once.
  ghost function Cost(heap: Heap, p: Ptr): nat
    requires TypedHeap(heap) && p in heap
  {
    heap[p].shallow + Allocated(heap[p].value)
  }

  ghost function Total(heap: Heap, ps: set<Ptr>): nat
    requires TypedHeap(heap) && ps <= heap.Keys
    decreases |ps|
  {
    if ps == {} then 0 else
      var p :| p in ps;
      Cost(heap, p) + Total(heap, ps - {p})
  }

  lemma {:induction false} TotalWithout(heap: Heap, ps: set<Ptr>, q: Ptr)
    requires TypedHeap(heap) && ps <= heap.Keys && q in ps
    ensures Total(heap, ps) == Cost(heap, q) + Total(heap, ps - {q})
    decreases |ps|
  {
    var p :| p in ps && Total(heap, ps) == Cost(heap, p) + Total(heap, ps - {p});
    if p != q {
      TotalWithout(heap, ps - {p}, q);
      TotalWithout(heap, ps - {q}, p);
      assert ps - {p} - {q} == ps - {q} - {p};
    }
  }

  lemma {:induction false} TotalUnion(heap: Heap, a: set<Ptr>, b: set<Ptr>)
    requires TypedHeap(heap) && a <= heap.Keys && b <= heap.Keys && a !! b
    ensures Total(heap, a + b) == Total(heap, a) + Total(heap, b)
    decreases |a|
  {
    if a == {} {
      assert a + b == b;
    } else {
      var p :| p in a;
      TotalWithout(heap, a, p);
      TotalWithout(heap, a + b, p);
      assert (a + b) - {p} == (a - {p}) + b;
      TotalUnion(heap, a - {p}, b);
    }
  }

  // A measurement is the value's own size plus every allocation that it is the first to see.
  lemma {:induction false} MeasuredIsAccounted(heap: Heap, t: Ty, v: Value, seen: set<Ptr>)
    requires TypedHeap(heap) && HasType(t, v) && Consistent(heap, t, v)
    ensures var m := Full(t, v, seen);
            && seen <= m.seen <= seen + Reached(v) && m.seen - seen <= heap.Keys
            && m.size == Allocated(v) + Total(heap, m.seen - seen)
    decreases t, 1, 0
  {
    hide Interleave, Held, Total;
    if t.SharedOf? {
      if v.ptr in seen {
        NothingNew(heap, seen);
      } else {
        MeasuredIsAccounted(heap, t.t, v.value, seen + {v.ptr});
        FirstSeen(heap, seen, Full(t.t, v.value, seen + {v.ptr}).seen, v.ptr);
      }
    } else {
      HeldIsSmaller(t, v);
      HeldIsAllocated(t, v);
      AllAreAccounted(heap, t, Held(t, v), seen);
    }
  }

  lemma NothingNew(heap: Heap, seen: set<Ptr>)
    requires TypedHeap(heap)
    ensures seen - seen == {} && Total(heap, seen - seen) == 0
  {
    assert seen - seen == {};
  }

  // Of the allocations seen from p on, p is one and the rest are those seen after it.
  lemma FirstSeen(heap: Heap, seen: set<Ptr>, after: set<Ptr>, p: Ptr)
    requires TypedHeap(heap) && p !in seen && p in after && p in heap && after - (seen + {p}) <= heap.Keys
    ensures after - seen <= heap.Keys
    ensures Total(heap, after - seen) == Cost(heap, p) + Total(heap, after - (seen + {p}))
  {
    TotalWithout(heap, after - seen, p);
    assert after - seen - {p} == after - (seen + {p});
  }

  lemma {:induction false} AllAreAccounted(heap: Heap, t: Ty, c: Children, seen: set<Ptr>)
    requires TypedHeap(heap) && AllTyped(c) && (forall i :: 0 <= i < |c| ==> c[i].0 < t) && ConsistentAll(heap, t, c)
    ensures var m := FullAll(t, c, seen);
            && seen <= m.seen <= seen + ReachedIn(c) && m.seen - seen <= heap.Keys
            && m.size == AllocatedIn(c) + Total(heap, m.seen - seen)
    decreases t, 0, |c|
  {
    if c == [] {
      assert seen - seen == {};
    } else {
      var first := Full(c[0].0, c[0].1, seen);
      var rest := FullAll(t, c[1..], first.seen);
      MeasuredIsAccounted(heap, c[0].0, c[0].1, seen);
      AllAreAccounted(heap, t, c[1..], first.seen);
      TotalUnion(heap, first.seen - seen, rest.seen - first.seen);
      assert (first.seen - seen) + (rest.seen - first.seen) == rest.seen - seen;
    }
  }

  // Every seen allocation has been followed to the end, apart from the open ones, which the value
  // being measured is part of.
  ghost predicate Followed(heap: Heap, seen: set<Ptr>, open: set<Ptr>)
    requires TypedHeap(heap)
  {
    seen <= heap.Keys && forall p :: p in seen && p !in open ==> Reached(heap[p].value) <= seen
  }

  ghost predicate Inside(heap: Heap, t: Ty, open: set<Ptr>) {
    forall p :: p in open ==> p in heap && (t == heap[p].t || t < heap[p].t)
  }

  lemma {:induction false} EverythingIsSeen(heap: Heap, t: Ty, v: Value, seen: set<Ptr>, open: set<Ptr>)
    requires TypedHeap(heap) && HasType(t, v) && Consistent(heap, t, v)
    requires Followed(heap, seen, open) && Inside(heap, t, open)
    ensures var m := Full(t, v, seen);
            seen <= m.seen && Followed(heap, m.seen, open) && Reached(v) <= m.seen
    decreases t, 1, 0
  {
    hide Interleave, Held, Allocated;
    if t.SharedOf? {
      if v.ptr in seen {
        assert v.ptr !in open;
      } else {
        assert Inside(heap, t.t, open + {v.ptr});
        EverythingIsSeen(heap, t.t, v.value, seen + {v.ptr}, open + {v.ptr});
      }
    } else {
      HeldIsSmaller(t, v);
      HeldIsAllocated(t, v);
      AllAreSeen(heap, t, Held(t, v), seen, open);
    }
  }

  lemma {:induction false} AllAreSeen(heap: Heap, t: Ty, c: Children, seen: set<Ptr>, open: set<Ptr>)
    requires TypedHeap(heap) && AllTyped(c) && (forall i :: 0 <= i < |c| ==> c[i].0 < t) && ConsistentAll(heap, t, c)
    requires Followed(heap, seen, open) && Inside(heap, t, open)
    ensures var m := FullAll(t, c, seen);
            seen <= m.seen && Followed(heap, m.seen, open) && ReachedIn(c) <= m.seen
    decreases t, 0, |c|
  {
    if c != [] {
      assert Inside(heap, c[0].0, open);
      EverythingIsSeen(heap, c[0].0, c[0].1, seen, open);
      AllAreSeen(heap, t, c[1..], Full(c[0].0, c[0].1, seen).seen, open);
    }
  }

  // A measurement counts every shared allocation that the value leads to exactly once, however often
  // and wherever it is found; measuring the value again counts none of them.
  lemma SharedIsCountedOnce(heap: Heap, t: Ty, v: Value)
    requires TypedHeap(heap) && HasType(t, v) && Consistent(heap, t, v)
    ensures Reached(v) <= heap.Keys
    ensures Fast(t, v, {}) == Measured(Allocated(v) + Total(heap, Reached(v)), Reached(v))
    ensures Fast(t, v, Reached(v)) == Measured(Allocated(v), Reached(v))
  {
    hide Fast, Full, Allocated, Reached, Total, Consistent;
    FastIsFull(t, v, {});
    FastIsFull(t, v, Reached(v));
    MeasuredIsAccounted(heap, t, v, {});
    EverythingIsSeen(heap, t, v, {}, {});
    assert Full(t, v, {}).seen == Reached(v);
    assert Full(t, v, {}).seen - {} == Reached(v);
    NothingNew(heap, Reached(v));
    MeasuredIsAccounted(heap, t, v, Reached(v));
    assert Full(t, v, Reached(v)).seen == Reached(v);
    assert Reached(v) - Reached(v) == {};
  }

  // ----- The measuring code -----

  class MallocSizeOfOps {
    var seen: set<Ptr>

    constructor ()
      ensures seen == {}
    {
      seen := {};
    }

    // Whether the pointer has been seen before, remembering it for the next time.
    method HaveSeenPtr(p: Ptr) returns (before: bool)
      modifies this
      ensures before == (p in old(seen)) && seen == old(seen) + {p}
    {
      before := p in seen;
      seen := seen + {p};
    }
  }

  method SizeOf(t: Ty, v: Value, ops: MallocSizeOfOps) returns (n: nat)
    requires HasType(t, v)
    modifies ops
    ensures Measured(n, ops.seen) == Fast(t, v, old(ops.seen))
    decreases t, 1, 0
  {
    if t.SharedOf? {
      var before := ops.HaveSeenPtr(v.ptr);
      if before {
        assert old(ops.seen) + {v.ptr} == old(ops.seen);
        n := 0;
      } else {
        var inner := SizeOf(t.t, v.value, ops);
        n := v.shallow + inner;
      }
    } else {
      n := OwnShallow(v);
      if Shortcut(t, v).Some? {
        n := n + Shortcut(t, v).value;
      } else {
        HeldIsSmaller(t, v);
        var held := SizeOfAll(t, Held(t, v), ops);
        n := n + held;
      }
    }
  }

  // Measures one element after the other and adds up.
  method SizeOfAll(t: Ty, c: Children, ops: MallocSizeOfOps) returns (n: nat)
    requires AllTyped(c) && forall i :: 0 <= i < |c| ==> c[i].0 < t
    modifies ops
    ensures Measured(n, ops.seen) == FastAll(t, c, old(ops.seen))
    decreases t, 0, |c|
  {
    ghost var all := FastAll(t, c, ops.seen);
    n := 0;
    for i := 0 to |c|
      invariant n + FastAll(t, c[i..], ops.seen).size == all.size && FastAll(t, c[i..], ops.seen).seen == all.seen
    {
      assert c[i..][1..] == c[i + 1..];
      var elem := SizeOf(c[i].0, c[i].1, ops);
      n := n + elem;
    }
  }

  // A measurement on its own, with nothing seen before.
  method Measure(t: Ty, v: Value, ghost heap: Heap) returns (n: nat)
    requires TypedHeap(heap) && HasType(t, v) && Consistent(heap, t, v)
    ensures Reached(v) <= heap.Keys && n == Allocated(v) + Total(heap, Reached(v))
  {
    var ops := new MallocSizeOfOps();
    n := SizeOf(t, v, ops);
    SharedIsCountedOnce(heap, t, v);
  }
}
