/** The annotation object that `createAnnotationInstance` builds: an insertion-ordered
    map from member name to value, structural `equals`, a `hashCode` and a
    `toString` computed once and cached, and the proxy's dispatch on method names. */
module AnnotationInstances {
  import opened JvmModel
  import opened Outcomes

  /** One entry of the `LinkedHashMap<String, Any>` of member values. */
  type Entry = (string, Value)

  function KeySet(entries: seq<Entry>): set<string> {
    if entries == [] then {} else {entries[0].0} + KeySet(entries[1..])
  }

  predicate DistinctKeys(entries: seq<Entry>) {
    entries == [] || (entries[0].0 !in KeySet(entries[1..]) && DistinctKeys(entries[1..]))
  }

  /** `values[k]`: the value stored under `k`, or `null` when `k` is not a key. */
  function Get(entries: seq<Entry>, k: string): (v: Value)
    ensures k !in KeySet(entries) ==> v == Null
  {
    if entries == [] then Null
    else if entries[0].0 == k then entries[0].1
    else Get(entries[1..], k)
  }

  /** Without duplicate keys, `Get` finds every entry's own value. */
  lemma {:induction false} GetAt(entries: seq<Entry>, i: nat)
    requires DistinctKeys(entries) && i < |entries|
    ensures Get(entries, entries[i].0) == entries[i].1
  {
    if i > 0 {
      GetAt(entries[1..], i - 1);
      KeyInKeySet(entries[1..], i - 1);
    }
  }

  lemma {:induction false} KeyInKeySet(entries: seq<Entry>, i: nat)
    requires i < |entries|
    ensures entries[i].0 in KeySet(entries)
  {
    if i > 0 {
      KeyInKeySet(entries[1..], i - 1);
    }
  }

  /** `LinkedHashMap.put(k, v)`: an existing key keeps its position and takes the
      new value; a new key is appended. */
  function Put(entries: seq<Entry>, k: string, v: Value): (r: seq<Entry>)
    ensures KeySet(r) == KeySet(entries) + {k}
  {
    if entries == [] then [(k, v)]
    else if entries[0].0 == k then [(k, v)] + entries[1..]
    else
      assert ([entries[0]] + Put(entries[1..], k, v))[1..] == Put(entries[1..], k, v);
      [entries[0]] + Put(entries[1..], k, v)
  }

  /** After `put(k, v)`, `k` reads `v` and every other key reads as before. */
  lemma {:induction false} PutGet(entries: seq<Entry>, k: string, v: Value, k': string)
    ensures Get(Put(entries, k, v), k') == if k' == k then v else Get(entries, k')
  {
    if entries != [] && entries[0].0 != k {
      PutGet(entries[1..], k, v, k');
      assert Put(entries, k, v)[1..] == Put(entries[1..], k, v);
    } else if entries != [] {
      assert Put(entries, k, v)[1..] == entries[1..];
    }
  }

  /** `put` keeps the keys distinct, and appends a key that is new. */
  lemma {:induction false} PutShape(entries: seq<Entry>, k: string, v: Value)
    ensures DistinctKeys(entries) ==> DistinctKeys(Put(entries, k, v))
    ensures k !in KeySet(entries) ==> Put(entries, k, v) == entries + [(k, v)]
    ensures k in KeySet(entries) ==> (|Put(entries, k, v)| == |entries| &&
      forall i :: 0 <= i < |entries| ==> Put(entries, k, v)[i].0 == entries[i].0)
  {
    if entries != [] && entries[0].0 != k {
      PutShape(entries[1..], k, v);
      assert Put(entries, k, v)[1..] == Put(entries[1..], k, v);
      assert k !in KeySet(entries) ==> entries + [(k, v)] == [entries[0]] + (entries[1..] + [(k, v)]);
    } else if entries != [] {
      assert Put(entries, k, v)[1..] == entries[1..];
    }
  }

  /** The value a key ends up with when `pairs` are put in order into a map in
      which it read `d`: the value of its last pair, or `d` when it has none. */
  function LastOr(pairs: seq<Entry>, k: string, d: Value): Value {
    if pairs == [] then d else LastOr(pairs[1..], k, if pairs[0].0 == k then pairs[0].1 else d)
  }

  /** `pairs.forEach { acc.put(it.first, it.second) }`. */
  function PutAll(acc: seq<Entry>, pairs: seq<Entry>): (r: seq<Entry>)
    ensures KeySet(r) == KeySet(acc) + KeySet(pairs)
    decreases |pairs|
  {
    if pairs == [] then acc else PutAll(Put(acc, pairs[0].0, pairs[0].1), pairs[1..])
  }

  /** `pairs.toMap()`: the pairs put one after another into an empty `LinkedHashMap`. */
  function ToMap(pairs: seq<Entry>): seq<Entry> {
    PutAll([], pairs)
  }

  lemma {:induction false} PutAllDistinct(acc: seq<Entry>, pairs: seq<Entry>)
    requires DistinctKeys(acc)
    ensures DistinctKeys(PutAll(acc, pairs))
    decreases |pairs|
  {
    if pairs != [] {
      PutShape(acc, pairs[0].0, pairs[0].1);
      PutAllDistinct(Put(acc, pairs[0].0, pairs[0].1), pairs[1..]);
    }
  }

  lemma {:induction false} PutAllGet(acc: seq<Entry>, pairs: seq<Entry>, k: string)
    ensures Get(PutAll(acc, pairs), k) == LastOr(pairs, k, Get(acc, k))
    decreases |pairs|
  {
    if pairs != [] {
      PutGet(acc, pairs[0].0, pairs[0].1, k);
      PutAllGet(Put(acc, pairs[0].0, pairs[0].1), pairs[1..], k);
    }
  }

  lemma {:induction false} PutAllAppends(acc: seq<Entry>, pairs: seq<Entry>)
    requires DistinctKeys(acc + pairs)
    ensures PutAll(acc, pairs) == acc + pairs
    decreases |pairs|
  {
    if pairs != [] {
      var acc' := Put(acc, pairs[0].0, pairs[0].1);
      DistinctSplit(acc, pairs);
      PutShape(acc, pairs[0].0, pairs[0].1);
      assert pairs == [pairs[0]] + pairs[1..];
      assert pairs[0].0 in KeySet(pairs);
      assert acc' == acc + [pairs[0]];
      assert acc' + pairs[1..] == acc + pairs;
      PutAllAppends(acc', pairs[1..]);
    } else {
      assert acc + pairs == acc;
    }
  }

  /** A duplicate-free list splits into duplicate-free parts with disjoint keys. */
  lemma {:induction false} DistinctSplit(a: seq<Entry>, b: seq<Entry>)
    requires DistinctKeys(a + b)
    ensures DistinctKeys(a) && DistinctKeys(b) && KeySet(a) !! KeySet(b)
  {
    if a != [] {
      assert (a + b)[1..] == a[1..] + b;
      DistinctSplit(a[1..], b);
      KeySetConcat(a[1..], b);
    } else {
      assert a + b == b;
    }
  }

  lemma {:induction false} KeySetConcat(a: seq<Entry>, b: seq<Entry>)
    ensures KeySet(a + b) == KeySet(a) + KeySet(b)
  {
    if a != [] {
      assert (a + b)[1..] == a[1..] + b;
      KeySetConcat(a[1..], b);
    } else {
      assert a + b == b;
    }
  }

  /** `toMap` keeps each key once, holding the value its last pair gives it;
      pairs whose keys are already distinct come back unchanged, in order. */
  lemma ToMapSpec(pairs: seq<Entry>)
    ensures DistinctKeys(ToMap(pairs))
    ensures KeySet(ToMap(pairs)) == KeySet(pairs)
    ensures forall k :: Get(ToMap(pairs), k) == LastOr(pairs, k, Null)
    ensures DistinctKeys(pairs) ==> ToMap(pairs) == pairs
  {
    PutAllDistinct([], pairs);
    forall k ensures Get(ToMap(pairs), k) == LastOr(pairs, k, Null) {
      PutAllGet([], pairs, k);
    }
    if DistinctKeys(pairs) {
      assert [] + pairs == pairs;
      PutAllAppends([], pairs);
    }
  }

  /** The entries `(names[i], vs[i])`, in order: `names.zip(vs)`. */
  function Zip(names: seq<string>, vs: seq<Value>): seq<Entry>
    requires |names| == |vs|
  {
    seq(|names|, i requires 0 <= i < |names| => (names[i], vs[i]))
  }

  /** The member values of an annotation object read through its methods. */
  function MapOf(entries: seq<Entry>): map<string, Value> {
    map k | k in KeySet(entries) :: Get(entries, k)
  }

  // ---------------------------------------------------------------- equals

  /** `method(other)`: the value member `name` of the annotation object `other`
      returns; a member the object lacks reads as `null`. */
  function MemberOf(other: Value, name: string): Value
    requires other.Annot?
  {
    if name in other.fields then other.fields[name] else Null
  }

  /** Whether a member holding `ours` is compared element by element: a
      primitive array or an array of `String`. */
  predicate ComparedElementwise(ours: Value) {
    ours.PrimArray? || (ours.ObjArray? && ours.component == StringClass)
  }

  /** The comparison `equals` makes for member `name`: `Arrays.equals` after
      casting `theirs` to the array type of `ours` when `ours` is compared element
      by element (the cast fails when `theirs` is not such an array), `==`
      otherwise. */
  function MemberAgrees(name: string, ours: Value, theirs: Value): (r: Result<bool>)
    ensures !ComparedElementwise(ours) ==> r == Ok(ours == theirs)
    ensures r.Thrown? ==> r.error == CastFailed(name)
    ensures ComparedElementwise(ours) && r.Ok? ==> theirs != Null && RuntimeClass(theirs) == RuntimeClass(ours)
    ensures ours.PrimArray? && theirs.PrimArray? && theirs.elemKind == ours.elemKind ==>
      r == Ok(ours.elems == theirs.elems)
    ensures ours.ObjArray? && ours.component == StringClass && theirs.ObjArray? && theirs.component == StringClass ==>
      r == Ok(ours.items == theirs.items)
  {
    match ours
    case PrimArray(k, _, xs) =>
      if theirs.PrimArray? && theirs.elemKind == k then Ok(xs == theirs.elems) else Thrown(CastFailed(name))
    case ObjArray(c, _, xs) =>
      if c != StringClass then Ok(ours == theirs)
      else if theirs.ObjArray? && theirs.component == StringClass then Ok(xs == theirs.items)
      else Thrown(CastFailed(name))
    case _ => Ok(ours == theirs)
  }

  /** The comparison for the `i`-th declared member. */
  function Agreement(names: seq<string>, values: seq<Entry>, other: Value, i: nat): Result<bool>
    requires other.Annot? && i < |names|
  {
    MemberAgrees(names[i], Get(values, names[i]), MemberOf(other, names[i]))
  }

  /** `methods.all { ... }`: the members compared in declaration order, stopping
      at the first that disagrees or whose cast fails. */
  function MembersAgree(names: seq<string>, values: seq<Entry>, other: Value): Result<bool>
    requires other.Annot?
  {
    if names == [] then Ok(true)
    else
      var first := MemberAgrees(names[0], Get(values, names[0]), MemberOf(other, names[0]));
      if first == Ok(true) then MembersAgree(names[1..], values, other) else first
  }

  /** The local `equals(other)` of `createAnnotationInstance`. */
  function AnnotationEquals(annotationClass: JClass, names: seq<string>, values: seq<Entry>, other: Value): Result<bool> {
    if other.Annot? && other.cls == annotationClass then MembersAgree(names, values, other) else Ok(false)
  }

  /** The comparisons of the members after the first are those of the rest of the list. */
  lemma AgreementTail(names: seq<string>, values: seq<Entry>, other: Value)
    requires other.Annot? && names != []
    ensures forall i :: 1 <= i < |names| ==>
      Agreement(names, values, other, i) == Agreement(names[1..], values, other, i - 1)
  {
  }

  lemma {:induction false} MembersAgreeTrueIff(names: seq<string>, values: seq<Entry>, other: Value)
    requires other.Annot?
    ensures MembersAgree(names, values, other) == Ok(true) <==>
      forall i :: 0 <= i < |names| ==> Agreement(names, values, other, i) == Ok(true)
  {
    if names != [] {
      MembersAgreeTrueIff(names[1..], values, other);
      AgreementTail(names, values, other);
      if MembersAgree(names, values, other) == Ok(true) {
        assert Agreement(names, values, other, 0) == Ok(true);
        forall i | 0 <= i < |names| ensures Agreement(names, values, other, i) == Ok(true) {
          if i > 0 {
            assert Agreement(names[1..], values, other, i - 1) == Ok(true);
          }
        }
      } else if Agreement(names, values, other, 0) == Ok(true) {
        var i :| 0 <= i < |names[1..]| && Agreement(names[1..], values, other, i) != Ok(true);
        assert Agreement(names, values, other, i + 1) != Ok(true);
      }
    }
  }

  lemma {:induction false} MembersAgreeThrownIff(names: seq<string>, values: seq<Entry>, other: Value)
    requires other.Annot?
    ensures MembersAgree(names, values, other).Thrown? <==>
      exists i :: 0 <= i < |names| && Agreement(names, values, other, i).Thrown? &&
        forall j :: 0 <= j < i ==> Agreement(names, values, other, j) == Ok(true)
  {
    if names != [] {
      MembersAgreeThrownIff(names[1..], values, other);
      AgreementTail(names, values, other);
      var first := Agreement(names, values, other, 0);
      if first == Ok(true) {
        assert MembersAgree(names, values, other) == MembersAgree(names[1..], values, other);
        if MembersAgree(names, values, other).Thrown? {
          var i :| 0 <= i < |names[1..]| && Agreement(names[1..], values, other, i).Thrown? &&
            forall j :: 0 <= j < i ==> Agreement(names[1..], values, other, j) == Ok(true);
          forall j | 0 <= j < i + 1 ensures Agreement(names, values, other, j) == Ok(true) {
            if j > 0 { assert Agreement(names[1..], values, other, j - 1) == Ok(true); }
          }
          assert Agreement(names, values, other, i + 1).Thrown?;
        } else {
          forall i | 0 <= i < |names| && Agreement(names, values, other, i).Thrown?
            ensures exists j :: 0 <= j < i && Agreement(names, values, other, j) != Ok(true)
          {
            assert i > 0;
            assert Agreement(names[1..], values, other, i - 1).Thrown?;
            var j :| 0 <= j < i - 1 && Agreement(names[1..], values, other, j) != Ok(true);
            assert Agreement(names, values, other, j + 1) != Ok(true);
          }
        }
      } else {
        assert MembersAgree(names, values, other) == first;
        if !first.Thrown? {
          forall i | 0 <= i < |names| && Agreement(names, values, other, i).Thrown?
            ensures exists j :: 0 <= j < i && Agreement(names, values, other, j) != Ok(true)
          {
            assert i > 0;
            assert Agreement(names, values, other, 0) != Ok(true);
          }
        }
      }
    }
  }

  /** `equals` is true exactly when `other` is an annotation of the same class and
      every declared member agrees; it is false for any other object. */
  lemma EqualsTrueIff(annotationClass: JClass, names: seq<string>, values: seq<Entry>, other: Value)
    ensures AnnotationEquals(annotationClass, names, values, other) == Ok(true) <==>
      other.Annot? && other.cls == annotationClass &&
      forall i :: 0 <= i < |names| ==> Agreement(names, values, other, i) == Ok(true)
    ensures !(other.Annot? && other.cls == annotationClass) ==> AnnotationEquals(annotationClass, names, values, other) == Ok(false)
  {
    if other.Annot? && other.cls == annotationClass {
      MembersAgreeTrueIff(names, values, other);
    }
  }

  /** An annotation object equals itself read back through its own members. */
  lemma EqualsReflexive(annotationClass: JClass, names: seq<string>, values: seq<Entry>)
    ensures AnnotationEquals(annotationClass, names, values, Annot(annotationClass, MapOf(values))) == Ok(true)
  {
    var me := Annot(annotationClass, MapOf(values));
    forall i | 0 <= i < |names| ensures Agreement(names, values, me, i) == Ok(true) {
      assert MemberOf(me, names[i]) == Get(values, names[i]);
    }
    EqualsTrueIff(annotationClass, names, values, me);
  }

  /** No name occurs twice. */
  predicate DistinctNames(names: seq<string>) {
    forall i, j :: 0 <= i < j < |names| ==> names[i] != names[j]
  }

  lemma {:induction false} ZipKeys(names: seq<string>, vs: seq<Value>)
    requires |names| == |vs|
    ensures forall k :: k in KeySet(Zip(names, vs)) <==> k in names
    ensures DistinctNames(names) ==> DistinctKeys(Zip(names, vs))
  {
    if names != [] {
      var z := Zip(names, vs);
      assert z[0] == (names[0], vs[0]);
      assert z[1..] == Zip(names[1..], vs[1..]);
      ZipKeys(names[1..], vs[1..]);
      assert forall k :: k in names <==> k == names[0] || k in names[1..];
      if DistinctNames(names) {
        assert DistinctNames(names[1..]) by {
          forall i, j | 0 <= i < j < |names[1..]| ensures names[1..][i] != names[1..][j] {
            assert names[1..][i] == names[i + 1] && names[1..][j] == names[j + 1];
          }
        }
        assert names[0] !in names[1..] by {
          forall j | 0 <= j < |names[1..]| ensures names[1..][j] != names[0] {
            assert names[1..][j] == names[j + 1];
          }
        }
      }
    }
  }

  /** For distinct names, the instance holding `Zip(names, a)` answers `a[i]` for
      member `names[i]`, and so does the same instance read as an argument of
      `equals`. */
  lemma ZipLookup(cls: JClass, names: seq<string>, a: seq<Value>, i: nat)
    requires |names| == |a| && DistinctNames(names) && i < |names|
    ensures Get(Zip(names, a), names[i]) == a[i]
    ensures MemberOf(Annot(cls, MapOf(Zip(names, a))), names[i]) == a[i]
  {
    var z := Zip(names, a);
    ZipKeys(names, a);
    assert z[i] == (names[i], a[i]);
    GetAt(z, i);
  }

  /** Without array members, `equals` holds between two instances of one class
      with the same distinct member names only when they hold the same values,
      and then their `hashCode` and `toString` agree too. */
  lemma EqualWithoutArraysMeansSameValues(cls: JClass, names: seq<string>, a: seq<Value>, b: seq<Value>, jvm: Jvm)
    requires |names| == |a| == |b| && DistinctNames(names)
    requires forall i :: 0 <= i < |a| ==> !ComparedElementwise(a[i])
    requires AnnotationEquals(cls, names, Zip(names, a), Annot(cls, MapOf(Zip(names, b)))) == Ok(true)
    ensures a == b
    ensures HashOf(Zip(names, a), jvm) == HashOf(Zip(names, b), jvm)
    ensures ToStringOf(cls, Zip(names, a), jvm) == ToStringOf(cls, Zip(names, b), jvm)
  {
    var other := Annot(cls, MapOf(Zip(names, b)));
    EqualsTrueIff(cls, names, Zip(names, a), other);
    forall i | 0 <= i < |a| ensures a[i] == b[i] {
      ZipLookup(cls, names, a, i);
      ZipLookup(cls, names, b, i);
      assert Agreement(names, Zip(names, a), other, i) == Ok(true);
    }
  }

  /** Two instances of one class with the same distinct member names that differ
      in one member, compared with `==`, are not equal. */
  lemma OneDifferentMemberMakesUnequal(cls: JClass, names: seq<string>, a: seq<Value>, b: seq<Value>, i: nat)
    requires |names| == |a| == |b| && DistinctNames(names) && i < |a|
    requires forall j :: 0 <= j < |a| && j != i ==> a[j] == b[j]
    requires !ComparedElementwise(a[i]) && a[i] != b[i]
    ensures AnnotationEquals(cls, names, Zip(names, a), Annot(cls, MapOf(Zip(names, b)))) == Ok(false)
  {
    var other := Annot(cls, MapOf(Zip(names, b)));
    var values := Zip(names, a);
    forall j | 0 <= j < |a| ensures Agreement(names, values, other, j) == if j == i then Ok(false) else Ok(true) {
      ZipLookup(cls, names, a, j);
      ZipLookup(cls, names, b, j);
    }
    MembersAgreeTrueIff(names, values, other);
    MembersAgreeThrownIff(names, values, other);
    assert Agreement(names, values, other, i) != Ok(true);
    assert !MembersAgree(names, values, other).Thrown?;
    assert MembersAgree(names, values, other) != Ok(true);
    var r := MembersAgree(names, values, other);
    assert r.Ok? && !r.value;
    assert AnnotationEquals(cls, names, values, other) == r;
  }

  /** Two instances of one class with the same distinct member names that differ
      only in a primitive or `String` array member are equal exactly when the two
      arrays hold the same elements, whether or not they are the same array. */
  lemma ArrayMemberComparedByElements(cls: JClass, names: seq<string>, a: seq<Value>, b: seq<Value>, i: nat)
    requires |names| == |a| == |b| && DistinctNames(names) && i < |a|
    requires forall j :: 0 <= j < |a| && j != i ==> a[j] == b[j]
    requires (a[i].PrimArray? && b[i].PrimArray? && a[i].elemKind == b[i].elemKind) ||
             (a[i].ObjArray? && b[i].ObjArray? && a[i].component == StringClass && b[i].component == StringClass)
    ensures AnnotationEquals(cls, names, Zip(names, a), Annot(cls, MapOf(Zip(names, b)))) ==
      Ok(if a[i].PrimArray? then a[i].elems == b[i].elems else a[i].items == b[i].items)
  {
    var other := Annot(cls, MapOf(Zip(names, b)));
    var values := Zip(names, a);
    var same := if a[i].PrimArray? then a[i].elems == b[i].elems else a[i].items == b[i].items;
    forall j | 0 <= j < |a| ensures Agreement(names, values, other, j) == if j == i then Ok(same) else Ok(true) {
      ZipLookup(cls, names, a, j);
      ZipLookup(cls, names, b, j);
    }
    MembersAgreeTrueIff(names, values, other);
    if !same {
      MembersAgreeThrownIff(names, values, other);
      assert Agreement(names, values, other, i) != Ok(true);
      assert !MembersAgree(names, values, other).Thrown?;
      var r := MembersAgree(names, values, other);
      assert r.Ok? && !r.value;
      assert AnnotationEquals(cls, names, values, other) == r;
    }
  }

  // ---------------------------------------------------------------- hashCode

  /** `127 * key.hashCode() xor value.hashCode()`, in 32-bit arithmetic. */
  function EntryHash(e: Entry, jvm: Jvm): bv32 {
    (127 * jvm.hash(Str(e.0))) ^ jvm.hash(e.1)
  }

  /** The entry hashes added up without overflow. */
  function EntrySum(entries: seq<Entry>, jvm: Jvm): int {
    if entries == [] then 0 else EntryHash(entries[0], jvm) as int + EntrySum(entries[1..], jvm)
  }

  /** `values.entries.sumBy { ... }`: `Int` addition wraps around, so the sum is
      the unbounded sum of the entry hashes modulo 2^32. */
  function HashOf(entries: seq<Entry>, jvm: Jvm): bv32 {
    (EntrySum(entries, jvm) % 0x1_0000_0000) as bv32
  }

  lemma {:induction false} EntrySumConcat(a: seq<Entry>, b: seq<Entry>, jvm: Jvm)
    ensures EntrySum(a + b, jvm) == EntrySum(a, jvm) + EntrySum(b, jvm)
  {
    if a != [] {
      assert (a + b)[0] == a[0] && (a + b)[1..] == a[1..] + b;
      EntrySumConcat(a[1..], b, jvm);
    } else {
      assert a + b == b;
    }
  }

  /** Taking out entry `j` takes its hash out of the sum. */
  lemma EntrySumRemove(b: seq<Entry>, j: nat, jvm: Jvm)
    requires j < |b|
    ensures EntrySum(b, jvm) == EntryHash(b[j], jvm) as int + EntrySum(b[..j] + b[j + 1..], jvm)
  {
    var left, right := b[..j], b[j + 1..];
    assert b == left + ([b[j]] + right);
    EntrySumConcat(left, [b[j]] + right, jvm);
    EntrySumConcat(left, right, jvm);
    assert ([b[j]] + right)[0] == b[j] && ([b[j]] + right)[1..] == right;
  }

  lemma MultisetRemove(a: seq<Entry>, b: seq<Entry>, j: nat)
    requires multiset(a) == multiset(b) && a != [] && j < |b| && b[j] == a[0]
    ensures multiset(a[1..]) == multiset(b[..j] + b[j + 1..])
  {
    var x := a[0];
    assert a == [x] + a[1..];
    assert b == b[..j] + [x] + b[j + 1..];
    assert multiset(a[1..]) == multiset(a) - multiset{x};
    assert multiset(b[..j] + b[j + 1..]) == multiset(b) - multiset{x};
  }

  lemma {:induction false} EntrySumPermutation(a: seq<Entry>, b: seq<Entry>, jvm: Jvm)
    requires multiset(a) == multiset(b)
    ensures EntrySum(a, jvm) == EntrySum(b, jvm)
    decreases |a|
  {
    if a != [] {
      assert a[0] in multiset(b);
      var j :| 0 <= j < |b| && b[j] == a[0];
      MultisetRemove(a, b, j);
      EntrySumPermutation(a[1..], b[..j] + b[j + 1..], jvm);
      EntrySumRemove(b, j, jvm);
    } else {
      assert b == [];
    }
  }

  /** The hash code depends on the entries only, not on their order: it is the
      shape of the sum the `java.lang.annotation.Annotation` contract defines
      (arrays, though, contribute their identity hash). */
  lemma HashOfPermutation(a: seq<Entry>, b: seq<Entry>, jvm: Jvm)
    requires multiset(a) == multiset(b)
    ensures HashOf(a, jvm) == HashOf(b, jvm)
  {
    EntrySumPermutation(a, b, jvm);
  }

  // ---------------------------------------------------------------- toString

  /** `"${entry.key}=${entry.value}"`. */
  function EntryText(e: Entry, jvm: Jvm): string {
    e.0 + "=" + Show(e.1, jvm)
  }

  function EntryTexts(entries: seq<Entry>, jvm: Jvm): seq<string> {
    seq(|entries|, i requires 0 <= i < |entries| => EntryText(entries[i], jvm))
  }

  /** `joinTo` with separator `sep` and no prefix or postfix: the parts in order,
      a separator before every part but the first. */
  function Join(parts: seq<string>, sep: string): string {
    if parts == [] then ""
    else if |parts| == 1 then parts[0]
    else Join(parts[..|parts| - 1], sep) + sep + parts[|parts| - 1]
  }

  /** Part `k` is written right after the parts before it: the join of the first
      `k` parts, a separator unless `k` is 0, then part `k` form a prefix of the
      whole join. */
  lemma {:induction false} JoinInOrder(parts: seq<string>, sep: string, k: nat)
    requires k < |parts|
    ensures Join(parts[..k], sep) + (if k == 0 then "" else sep) + parts[k] <= Join(parts, sep)
    decreases |parts|
  {
    var n := |parts|;
    if k == n - 1 {
      assert parts[..k] == parts[..n - 1];
      if k == 0 {
        assert Join(parts[..0], sep) == "";
      }
    } else {
      var init := parts[..n - 1];
      JoinInOrder(init, sep, k);
      assert init[..k] == parts[..k] && init[k] == parts[k];
    }
  }

  /** `buildString { append('@'); append(canonicalName); joinTo(", ", "(", ")") }`. */
  function ToStringOf(annotationClass: JClass, entries: seq<Entry>, jvm: Jvm): string {
    "@" + CanonicalName(annotationClass) + "(" + Join(EntryTexts(entries, jvm), ", ") + ")"
  }

  /** The string starts with "@<canonical name>(", ends with ")", and lists the
      entries as "name=value" in map order, separated by ", ": entry `k` follows
      the entries before it. */
  lemma ToStringListsEntriesInOrder(annotationClass: JClass, entries: seq<Entry>, jvm: Jvm, k: nat)
    requires k < |entries|
    ensures var s := ToStringOf(annotationClass, entries, jvm);
      var head := "@" + CanonicalName(annotationClass) + "(";
      var before := Join(EntryTexts(entries[..k], jvm), ", ") + (if k == 0 then "" else ", ");
      && s[|s| - 1] == ')'
      && head + before + EntryText(entries[k], jvm) <= s
  {
    var texts := EntryTexts(entries, jvm);
    JoinInOrder(texts, ", ", k);
    assert texts[..k] == EntryTexts(entries[..k], jvm);
    var head := "@" + CanonicalName(annotationClass) + "(";
    var before := Join(texts[..k], ", ") + (if k == 0 then "" else ", ");
    PrefixExtends(head, before, texts[k], Join(texts, ", "), ")");
  }

  /** After the last entry comes only the closing ")". */
  lemma ToStringEndsWithLastEntry(annotationClass: JClass, entries: seq<Entry>, jvm: Jvm)
    requires entries != []
    ensures var n := |entries|;
      ToStringOf(annotationClass, entries, jvm) ==
        "@" + CanonicalName(annotationClass) + "(" + Join(EntryTexts(entries[..n - 1], jvm), ", ") +
        (if n == 1 then "" else ", ") + EntryText(entries[n - 1], jvm) + ")"
  {
    var texts := EntryTexts(entries, jvm);
    JoinLast(texts, ", ");
    assert texts[..|texts| - 1] == EntryTexts(entries[..|entries| - 1], jvm);
  }

  /** The join ends with its last part, after the join of the others and a
      separator when there are others. */
  lemma JoinLast(parts: seq<string>, sep: string)
    requires parts != []
    ensures Join(parts, sep) ==
      Join(parts[..|parts| - 1], sep) + (if |parts| == 1 then "" else sep) + parts[|parts| - 1]
  {
    if |parts| == 1 {
      assert Join(parts[..0], sep) == "";
    }
  }

  /** An annotation without members prints as "@<canonical name>()". */
  lemma ToStringWithoutMembers(annotationClass: JClass, jvm: Jvm)
    ensures ToStringOf(annotationClass, [], jvm) == "@" + CanonicalName(annotationClass) + "()"
  {
    assert EntryTexts([], jvm) == [];
  }

  lemma PrefixExtends(h: string, b: string, e: string, q: string, t: string)
    requires b + e <= q
    ensures h + b + e <= h + q + t
  {
    assert h + b + e == h + (b + e);
    assert (h + q + t)[..|h + b + e|] == h + b + e;
  }

  // ---------------------------------------------------------------- dispatch

  /** The proxy's invocation handler for a call of method `name` with `args`
      (`null` arguments, for a method without parameters, are the empty list),
      with the cached `hashCode` and `toString` values already computed. */
  function Dispatch(annotationClass: JClass, names: seq<string>, values: seq<Entry>, jvm: Jvm,
                    name: string, args: seq<Value>): Result<Value>
  {
    if name == "annotationType" then Ok(ClassRef(annotationClass))
    else if name == "toString" then Ok(Str(ToStringOf(annotationClass, values, jvm)))
    else if name == "hashCode" then Ok(Boxed(IntKind, HashOf(values, jvm) as int))
    else if name == "equals" && |args| == 1 then
      match AnnotationEquals(annotationClass, names, values, args[0])
      case Ok(b) => Ok(Boxed(BooleanKind, if b then 1 else 0))
      case Thrown(e) => Thrown(e)
    else if name in KeySet(values) then Ok(Get(values, name))
    else Thrown(MethodNotSupported(name, args))
  }

  /** Routing: the three fixed names first, `equals` only with one argument, then
      the stored members, and an error for anything else. */
  lemma DispatchRoutes(annotationClass: JClass, names: seq<string>, values: seq<Entry>, jvm: Jvm,
                       name: string, args: seq<Value>)
    ensures name == "hashCode" ==>
      Dispatch(annotationClass, names, values, jvm, name, args) == Ok(Boxed(IntKind, HashOf(values, jvm) as int))
    ensures name == "equals" && |args| == 1 ==>
      (Dispatch(annotationClass, names, values, jvm, name, args).Ok? <==>
       AnnotationEquals(annotationClass, names, values, args[0]).Ok?)
    ensures name !in {"annotationType", "toString", "hashCode", "equals"} && name in KeySet(values) ==>
      Dispatch(annotationClass, names, values, jvm, name, args) == Ok(Get(values, name))
    ensures name == "equals" && |args| != 1 && name in KeySet(values) ==>
      Dispatch(annotationClass, names, values, jvm, name, args) == Ok(Get(values, name))
    ensures name == "equals" && |args| != 1 && name !in KeySet(values) ==>
      Dispatch(annotationClass, names, values, jvm, name, args) == Thrown(MethodNotSupported(name, args))
    ensures name !in {"annotationType", "toString", "hashCode", "equals"} && name !in KeySet(values) ==>
      Dispatch(annotationClass, names, values, jvm, name, args) == Thrown(MethodNotSupported(name, args))
  {
  }

  /** Every call answers; `annotationType` and `toString` give the class and the
      string form whatever the arguments. */
  lemma DispatchFixedNames(annotationClass: JClass, names: seq<string>, values: seq<Entry>, jvm: Jvm,
                           name: string, args: seq<Value>)
    ensures name == "annotationType" ==>
      Dispatch(annotationClass, names, values, jvm, name, args) == Ok(ClassRef(annotationClass))
    ensures name == "toString" ==>
      Dispatch(annotationClass, names, values, jvm, name, args) == Ok(Str(ToStringOf(annotationClass, values, jvm)))
    ensures name == "equals" && |args| == 1 ==>
      (Dispatch(annotationClass, names, values, jvm, name, args) == Ok(Boxed(BooleanKind, 1)) <==>
       AnnotationEquals(annotationClass, names, values, args[0]) == Ok(true))
    ensures name == "equals" && |args| == 1 && AnnotationEquals(annotationClass, names, values, args[0]) == Ok(false) ==>
      Dispatch(annotationClass, names, values, jvm, name, args) == Ok(Boxed(BooleanKind, 0))
    ensures name == "equals" && |args| == 1 && AnnotationEquals(annotationClass, names, values, args[0]).Thrown? ==>
      Dispatch(annotationClass, names, values, jvm, name, args) ==
        Thrown(AnnotationEquals(annotationClass, names, values, args[0]).error)
  {
  }

  /** The object `createAnnotationInstance` returns. The member values and the
      class are fixed at creation; `hashCode` and `toString` are `lazy` cells that
      hold nothing until first asked for and then keep their value. */
  class AnnotationInstance {
    const annotationClass: JClass
    const methodNames: seq<string>
    const values: seq<Entry>
    const jvm: Jvm
    var hashCodeCell: Option<bv32>
    var toStringCell: Option<string>

    /** A filled cell holds what its `lazy` initializer computes. */
    ghost predicate Valid()
      reads this
    {
      && (hashCodeCell.Some? ==> hashCodeCell.value == HashOf(values, jvm))
      && (toStringCell.Some? ==> toStringCell.value == ToStringOf(annotationClass, values, jvm))
    }

    constructor (annotationClass: JClass, methodNames: seq<string>, values: seq<Entry>, jvm: Jvm)
      ensures Valid()
      ensures this.annotationClass == annotationClass && this.methodNames == methodNames
      ensures this.values == values && this.jvm == jvm
      ensures hashCodeCell == None && toStringCell == None
    {
      this.annotationClass := annotationClass;
      this.methodNames := methodNames;
      this.values := values;
      this.jvm := jvm;
      hashCodeCell := None;
      toStringCell := None;
    }

    /** The instance as an argument of some other annotation's `equals`: an
        annotation of this class whose members return the stored values. */
    function AsValue(): Value {
      Annot(annotationClass, MapOf(values))
    }

    /** The object equals itself: `equals` called with the object's own view. */
    lemma EqualsItself()
      ensures AnnotationEquals(annotationClass, methodNames, values, AsValue()) == Ok(true)
    {
      EqualsReflexive(annotationClass, methodNames, values);
    }

    /** The `hashCode` cell: computed on first use, then returned as cached. */
    method HashCode() returns (h: bv32)
      requires Valid()
      modifies this`hashCodeCell
      ensures Valid()
      ensures h == HashOf(values, jvm) && hashCodeCell == Some(h)
      ensures old(hashCodeCell).Some? ==> hashCodeCell == old(hashCodeCell)
    {
      if hashCodeCell.None? {
        hashCodeCell := Some(HashOf(values, jvm));
      }
      h := hashCodeCell.value;
    }

    /** The `toString` cell: computed on first use, then returned as cached. */
    method ToString() returns (s: string)
      requires Valid()
      modifies this`toStringCell
      ensures Valid()
      ensures s == ToStringOf(annotationClass, values, jvm) && toStringCell == Some(s)
      ensures old(toStringCell).Some? ==> toStringCell == old(toStringCell)
    {
      if toStringCell.None? {
        toStringCell := Some(ToStringOf(annotationClass, values, jvm));
      }
      s := toStringCell.value;
    }

    /** The proxy's invocation handler. */
    method Invoke(name: string, args: seq<Value>) returns (r: Result<Value>)
      requires Valid()
      modifies this
      ensures Valid()
      ensures r == Dispatch(annotationClass, methodNames, values, jvm, name, args)
      ensures name != "hashCode" ==> hashCodeCell == old(hashCodeCell)
      ensures name != "toString" ==> toStringCell == old(toStringCell)
      ensures old(hashCodeCell).Some? ==> hashCodeCell == old(hashCodeCell)
      ensures old(toStringCell).Some? ==> toStringCell == old(toStringCell)
      ensures name == "hashCode" ==> hashCodeCell == Some(HashOf(values, jvm))
      ensures name == "toString" ==> toStringCell == Some(ToStringOf(annotationClass, values, jvm))
    {
      if name == "annotationType" {
        r := Ok(ClassRef(annotationClass));
      } else if name == "toString" {
        var s := ToString();
        r := Ok(Str(s));
      } else if name == "hashCode" {
        var h := HashCode();
        r := Ok(Boxed(IntKind, h as int));
      } else if name == "equals" && |args| == 1 {
        var eq := AnnotationEquals(annotationClass, methodNames, values, args[0]);
        r := match eq
          case Ok(b) => Ok(Boxed(BooleanKind, if b then 1 else 0))
          case Thrown(e) => Thrown(e);
      } else if name in KeySet(values) {
        r := Ok(Get(values, name));
      } else {
        r := Thrown(MethodNotSupported(name, args));
      }
    }
  }
}
