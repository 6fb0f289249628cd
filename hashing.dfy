/**
 * ObjectExtensions.GetHashCodeFromFields and the GetHashCode override of
 * BusinessObjectBase.
 */
module Hashing {
  import opened Wrappers
  import opened Records
  import opened Equality

  const SeedPrimeNumber: int := 691
  const FieldPrimeNumber: int := 397
  const TwoTo32: int := 0x1_0000_0000

  /** The int the source computes in an `unchecked` context: the value modulo 2^32, in [-2^31, 2^31). */
  function Wrap32(x: int): (r: int)
    ensures -0x8000_0000 <= r < 0x8000_0000
    ensures (r - x) % TwoTo32 == 0
  {
    (x + 0x8000_0000) % TwoTo32 - 0x8000_0000
  }

  /**
   * GetHashCodeFromFields(fields): starting from 691, each non-null field's
   * hash h multiplies the running value by 397 + h, all in 32-bit
   * wrap-around arithmetic.
   */
  function HashFromFields(hashes: seq<Option<int>>): (h: int)
    ensures -0x8000_0000 <= h < 0x8000_0000
  {
    if hashes == [] then SeedPrimeNumber
    else
      var acc := HashFromFields(hashes[..|hashes| - 1]);
      match hashes[|hashes| - 1]
      case None => acc
      case Some(h) => Mix(acc, h)
  }

  /** One step of the fold: `hash * (FieldPrimeNumber + fieldHash)`, unchecked. */
  function Mix(acc: int, h: int): int {
    Wrap32(acc * Wrap32(FieldPrimeNumber + h))
  }

  lemma HashFromFieldsSnoc(init: seq<Option<int>>, h: Option<int>)
    ensures HashFromFields(init + [h]) == if h.Some? then Mix(HashFromFields(init), h.value) else HashFromFields(init)
  {
    assert (init + [h])[..|init|] == init;
  }

  /** Null fields do not take part in the hash. */
  lemma {:induction false} HashSkipsNulls(hashes: seq<Option<int>>)
    ensures HashFromFields(hashes) == HashFromFields(NonNull(hashes))
  {
    if hashes != [] {
      var n := |hashes| - 1;
      var init := hashes[..n];
      HashSkipsNulls(init);
      assert hashes == init + [hashes[n]];
      NonNullSnoc(init, hashes[n]);
      HashFromFieldsSnoc(init, hashes[n]);
      if hashes[n].Some? {
        assert NonNull(hashes) == NonNull(init) + [hashes[n]];
        HashFromFieldsSnoc(NonNull(init), hashes[n]);
        assert HashFromFields(hashes) == Mix(HashFromFields(init), hashes[n].value);
        assert HashFromFields(NonNull(hashes)) == Mix(HashFromFields(NonNull(init)), hashes[n].value);
      } else {
        assert NonNull(hashes) == NonNull(init);
      }
    }
  }

  /** The non-null hashes, in order. */
  function NonNull(hashes: seq<Option<int>>): (r: seq<Option<int>>)
    ensures forall i :: 0 <= i < |r| ==> r[i].Some?
  {
    if hashes == [] then []
    else (if hashes[0].Some? then [hashes[0]] else []) + NonNull(hashes[1..])
  }

  lemma {:induction false} NonNullSnoc(hashes: seq<Option<int>>, h: Option<int>)
    ensures NonNull(hashes + [h]) == NonNull(hashes) + (if h.Some? then [h] else [])
  {
    if hashes == [] {
      assert [h][1..] == [];
    } else {
      assert (hashes + [h])[1..] == hashes[1..] + [h];
      NonNullSnoc(hashes[1..], h);
    }
  }

  /** Every object's hash when all its fields are null: the seed 691. */
  lemma AllNullHash(hashes: seq<Option<int>>)
    requires forall i :: 0 <= i < |hashes| ==> hashes[i].None?
    ensures HashFromFields(hashes) == SeedPrimeNumber
  {
    HashSkipsNulls(hashes);
    AllNullDropped(hashes);
  }

  lemma {:induction false} AllNullDropped(hashes: seq<Option<int>>)
    requires forall i :: 0 <= i < |hashes| ==> hashes[i].None?
    ensures NonNull(hashes) == []
  {
    if hashes != [] {
      AllNullDropped(hashes[1..]);
    }
  }

  /** GetHashCodeFromFields: the loop over the field hashes (null fields have none). */
  method GetHashCodeFromFields(fields: seq<Option<int>>) returns (hashCode: int)
    ensures hashCode == HashFromFields(fields)
  {
    hashCode := SeedPrimeNumber;
    for i := 0 to |fields|
      invariant hashCode == HashFromFields(fields[..i])
    {
      assert fields[..i + 1] == fields[..i] + [fields[i]];
      HashFromFieldsSnoc(fields[..i], fields[i]);
      var b := fields[i];
      if b.Some? {
        hashCode := Wrap32(hashCode * Wrap32(FieldPrimeNumber + b.value));
      }
    }
    assert fields[..|fields|] == fields;
  }

  // ----- the fold does not depend on the order of the fields -----

  /** The factor a field contributes: 397 + h, or 1 for a null field. */
  function Factor(h: Option<int>): int {
    if h.Some? then FieldPrimeNumber + h.value else 1
  }

  /** The product of the factors, in unbounded arithmetic. */
  function Product(hashes: seq<Option<int>>): int {
    if hashes == [] then 1 else Product(hashes[..|hashes| - 1]) * Factor(hashes[|hashes| - 1])
  }

  /** Wrap32 only depends on its argument modulo 2^32. */
  lemma Wrap32Congruent(a: int, b: int)
    requires (a - b) % TwoTo32 == 0
    ensures Wrap32(a) == Wrap32(b)
  {
    var m := (a - b) / TwoTo32;
    assert a == b + TwoTo32 * m;
    assert (b + 0x8000_0000 + TwoTo32 * m) % TwoTo32 == (b + 0x8000_0000) % TwoTo32;
  }

  /** Products of congruent factors are congruent. */
  lemma MulCongruent(a: int, a': int, b: int, b': int)
    requires (a - a') % TwoTo32 == 0 && (b - b') % TwoTo32 == 0
    ensures (a * b - a' * b') % TwoTo32 == 0
  {
    var m := (a - a') / TwoTo32;
    var n := (b - b') / TwoTo32;
    assert a == a' + TwoTo32 * m;
    assert b == b' + TwoTo32 * n;
    calc {
      a * b - a' * b';
      (a' + TwoTo32 * m) * (b' + TwoTo32 * n) - a' * b';
      TwoTo32 * (m * b' + a' * n + TwoTo32 * m * n);
    }
  }

  lemma MulAssoc(x: int, y: int, z: int)
    ensures (x * y) * z == x * (y * z)
  {
  }

  /** The fold is the product of the factors times 691, wrapped once at the end. */
  lemma {:induction false} HashIsWrappedProduct(hashes: seq<Option<int>>)
    ensures HashFromFields(hashes) == Wrap32(SeedPrimeNumber * Product(hashes))
  {
    if hashes == [] {
      assert Wrap32(SeedPrimeNumber) == SeedPrimeNumber;
    } else {
      var n := |hashes| - 1;
      var init := hashes[..n];
      HashIsWrappedProduct(init);
      assert hashes == init + [hashes[n]];
      HashFromFieldsSnoc(init, hashes[n]);
      var p := SeedPrimeNumber * Product(init);
      if hashes[n].Some? {
        var f := FieldPrimeNumber + hashes[n].value;
        MulCongruent(Wrap32(p), p, Wrap32(f), f);
        assert Product(hashes) == Product(init) * f;
        MulAssoc(SeedPrimeNumber, Product(init), f);
        Wrap32Congruent(Wrap32(p) * Wrap32(f), p * f);
      }
    }
  }

  lemma {:induction false} ProductConcat(a: seq<Option<int>>, b: seq<Option<int>>)
    ensures Product(a + b) == Product(a) * Product(b)
  {
    if b == [] {
      assert a + b == a;
    } else {
      var n := |b| - 1;
      ProductConcat(a, b[..n]);
      assert (a + b)[..|a + b| - 1] == a + b[..n];
    }
  }

  /** Fields with the same hashes, in any order, give the same hash code. */
  lemma {:induction false} HashOrderIndependent(s: seq<Option<int>>, t: seq<Option<int>>)
    requires multiset(s) == multiset(t)
    ensures HashFromFields(s) == HashFromFields(t)
  {
    ProductPermutation(s, t);
    HashIsWrappedProduct(s);
    HashIsWrappedProduct(t);
  }

  lemma {:induction false} ProductPermutation(s: seq<Option<int>>, t: seq<Option<int>>)
    requires multiset(s) == multiset(t)
    ensures Product(s) == Product(t)
    decreases |s|
  {
    if s == [] {
      assert |t| == |multiset(t)| == 0;
    } else {
      var n := |s| - 1;
      var x := s[n];
      assert x in multiset(t);
      var j :| 0 <= j < |t| && t[j] == x;
      MultisetRemove(s, n);
      MultisetRemove(t, j);
      ProductPermutation(s[..n] + s[n + 1..], t[..j] + t[j + 1..]);
      ProductRemove(s, n);
      ProductRemove(t, j);
    }
  }

  lemma MultisetRemove(t: seq<Option<int>>, j: nat)
    requires j < |t|
    ensures multiset(t[..j] + t[j + 1..]) == multiset(t) - multiset{t[j]}
  {
    assert t == t[..j] + [t[j]] + t[j + 1..];
  }

  lemma ProductRemove(t: seq<Option<int>>, j: nat)
    requires j < |t|
    ensures Product(t) == Product(t[..j] + t[j + 1..]) * Factor(t[j])
  {
    var front, back, x := t[..j], t[j + 1..], t[j];
    assert t == (front + [x]) + back;
    assert (front + [x])[..|front|] == front;
    calc {
      Product(t);
    == { ProductConcat(front + [x], back); }
      Product(front + [x]) * Product(back);
    ==
      (Product(front) * Factor(x)) * Product(back);
    == { MulSwap(Product(front), Factor(x), Product(back)); }
      (Product(front) * Product(back)) * Factor(x);
    == { ProductConcat(front, back); }
      Product(front + back) * Factor(x);
    }
  }

  lemma MulSwap(a: int, f: int, b: int)
    ensures (a * f) * b == (a * b) * f
  {
  }

  /**
   * GetHashCode() as written: `this.GetHashCodeFromFields(GetAllDataProperties())`
   * passes the descriptor sequence itself as the single field, so the hash
   * is that of the enumerable object (`descriptorsHash`), a fresh one on
   * every call, and not of the property values.
   */
  function HashCodeAsWritten(r: Record, descriptorsHash: int): (h: int)
    ensures h == Wrap32(SeedPrimeNumber * Wrap32(FieldPrimeNumber + descriptorsHash))
  {
    assert [] + [Some(descriptorsHash)] == [Some(descriptorsHash)];
    HashFromFieldsSnoc([], Some(descriptorsHash));
    HashFromFields([Some(descriptorsHash)])
  }

  /** Two calls on the very same object may disagree, although the object Equals itself. */
  lemma HashCodeAsWrittenBreaksEquality(r: Record)
    requires WellFormed(r)
    ensures EqualsObject(r, Some(r)) == Ok(true)
    ensures HashCodeAsWritten(r, 0) != HashCodeAsWritten(r, 1)
  {
    EqualsReflexive(r);
    assert [Some(0)][..0] == [];
    assert [Some(1)][..0] == [];
  }

  /** The hash codes of the values that Equals compares: by value for scalars, by reference for lists. */
  datatype ValueHashes = ValueHashes(
    ofString: string -> int,
    ofDecimal: real -> int,
    ofDate: int -> int,
    ofList: nat -> int)

  /**
   * GetHashCode() as intended: GetHashCodeFromFields over the data
   * property values, a nested object contributing its own GetHashCode().
   */
  function HashCode(r: Record, hs: ValueHashes): (h: int)
    ensures -0x8000_0000 <= h < 0x8000_0000
    ensures (forall k :: 0 <= k < |r.fields| ==> IsNull(r.fields[k].value)) ==> h == SeedPrimeNumber
    decreases r, 2
  {
    NullFieldsUnhashed(r, hs, |r.fields|);
    HashFromFields(FieldHashes(r, hs, |r.fields|))
  }

  /** Null values contribute no hash, so an object of null values hashes to the seed. */
  lemma {:induction false} NullFieldsUnhashed(r: Record, hs: ValueHashes, k: nat)
    requires k <= |r.fields|
    ensures (forall j :: 0 <= j < k ==> IsNull(r.fields[j].value)) ==> HashFromFields(FieldHashes(r, hs, k)) == SeedPrimeNumber
    decreases r, 1, k
  {
    if k > 0 && forall j :: 0 <= j < k ==> IsNull(r.fields[j].value) {
      NullFieldsUnhashed(r, hs, k - 1);
      var init := FieldHashes(r, hs, k - 1);
      assert FieldHashes(r, hs, k) == init + [None];
      HashFromFieldsSnoc(init, None);
    }
  }

  function FieldHashes(r: Record, hs: ValueHashes, k: nat): (s: seq<Option<int>>)
    requires k <= |r.fields|
    ensures |s| == k
    decreases r, 0, k
  {
    if k == 0 then [] else FieldHashes(r, hs, k - 1) + [ValueHash(r.fields[k - 1].value, hs)]
  }

  /** A property value's hash code; null has none. */
  function ValueHash(v: Value, hs: ValueHashes): Option<int>
    decreases v, 0, 0
  {
    match v
    case Str(s) => if s.Some? then Some(hs.ofString(s.value)) else None
    case Dec(d) => if d.Some? then Some(hs.ofDecimal(d.value)) else None
    case Date(t) => if t.Some? then Some(hs.ofDate(t.value)) else None
    case Nested(c) => Some(HashCode(c, hs))
    case RecordList(id, _, _) => Some(hs.ofList(id))
    case StringList(id, _) => Some(hs.ofList(id))
  }

  /**
   * Equal objects have equal intended hash codes (objects of one type
   * have the data properties `schema` gives for it).
   */
  lemma {:induction false} EqualsImpliesSameHash(a: Record, b: Record, hs: ValueHashes, schema: string -> seq<Property>)
    requires WellFormed(a) && Conforms(a, schema) && Conforms(b, schema)
    requires EqualsObject(a, Some(b)) == Ok(true)
    ensures HashCode(a, hs) == HashCode(b, hs)
    decreases a, 1
  {
    EqualFieldsSameHashes(a, b, hs, schema, |a.fields|);
  }

  lemma {:induction false} EqualFieldsSameHashes(a: Record, b: Record, hs: ValueHashes, schema: string -> seq<Property>, k: nat)
    requires WellFormed(a) && Conforms(a, schema) && Conforms(b, schema)
    requires a.typeName == b.typeName && EqualsTo(a, b) == Ok(true)
    requires k <= |a.fields|
    ensures FieldHashes(a, hs, k) == FieldHashes(b, hs, k)
    decreases a, 0, k
  {
    if k > 0 {
      EqualFieldsSameHashes(a, b, hs, schema, k - 1);
      var j := k - 1;
      SameShape(a, b, schema);
      EqualsToAt(a, b, 0, j);
      SlotSameHash(a, j, b.fields[j].value, hs, schema);
    }
  }

  lemma SameShape(a: Record, b: Record, schema: string -> seq<Property>)
    requires Conforms(a, schema) && Conforms(b, schema) && a.typeName == b.typeName
    ensures |a.fields| == |b.fields| && forall m :: 0 <= m < |a.fields| ==> a.fields[m].prop == b.fields[m].prop
  {
  }

  lemma {:induction false} SlotSameHash(a: Record, j: nat, v2: Value, hs: ValueHashes, schema: string -> seq<Property>)
    requires WellFormed(a) && Conforms(a, schema) && j < |a.fields|
    requires v2.Nested? ==> Conforms(v2.record, schema)
    requires SlotEquals(a, j, v2) == Ok(true)
    ensures ValueHash(a.fields[j].value, hs) == ValueHash(v2, hs)
    decreases a, 0, 0
  {
    var v1 := a.fields[j].value;
    if v1.Nested? && v2.Nested? {
      EqualsImpliesSameHash(v1.record, v2.record, hs, schema);
    }
  }

  /** Equals(object) answering true means each property compared equal. */
  lemma {:induction false} EqualsToAt(a: Record, b: Record, i: nat, j: nat)
    requires UniqueNames(a.fields) && a.typeName == b.typeName
    requires |a.fields| == |b.fields| && forall m :: 0 <= m < |a.fields| ==> a.fields[m].prop == b.fields[m].prop
    requires i <= j < |a.fields| && FieldsEqualFrom(a, b, i) == Ok(true)
    ensures SlotEquals(a, j, b.fields[j].value) == Ok(true)
    decreases j - i
  {
    FoundAt(a, b, i);
    if i < j {
      EqualsToAt(a, b, i + 1, j);
    }
  }
}
