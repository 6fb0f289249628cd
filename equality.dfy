/**
 * IEquatable<BusinessObjectBase>: Equals(BusinessObjectBase), the
 * Equals(object) override and the == and != operators.
 */
module Equality {
  import opened Wrappers
  import opened Records

  /**
   * Equals(object) on two objects of the same class: the type names must
   * match, then the data properties are compared.
   */
  function EqualsObject(a: Record, obj: Option<Record>): (r: Result<bool, Failure>)
    ensures obj.None? ==> r == Ok(false)
    ensures obj.Some? && obj.value.typeName != a.typeName ==> r == Ok(false)
    ensures r == Ok(true) ==> obj.Some? && obj.value.typeName == a.typeName
    decreases a, 2
  {
    if obj.None? then Ok(false)
    else if a.typeName != obj.value.typeName then Ok(false)
    else EqualsTo(a, obj.value)
  }

  /**
   * Equals(BusinessObjectBase other) with a non-null `other`: each data
   * property of `a`'s type is read on both objects; the first pair that
   * differs decides. PropertyInfo.GetValue on an object of another type
   * throws.
   */
  function EqualsTo(a: Record, b: Record): (r: Result<bool, Failure>)
    ensures |a.fields| == 0 ==> r == Ok(true)
    ensures |a.fields| > 0 && b.typeName != a.typeName ==> r == Err(TargetMismatch)
    decreases a, 1
  {
    FieldsEqualFrom(a, b, 0)
  }

  /**
   * The comparison loop from the k-th data property on: true means every
   * remaining property is found on `b` and compares equal there.
   */
  function FieldsEqualFrom(a: Record, b: Record, k: nat): (r: Result<bool, Failure>)
    ensures r == Ok(true) ==> forall j :: k <= j < |a.fields| ==>
      FindField(b.fields, a.fields[j].prop.name).Some? &&
      SlotEquals(a, j, b.fields[FindField(b.fields, a.fields[j].prop.name).value].value) == Ok(true)
    decreases a, 0, |a.fields| - k
  {
    if k >= |a.fields| then Ok(true)
    else if b.typeName != a.typeName then Err(TargetMismatch)
    else match FindField(b.fields, a.fields[k].prop.name)
      case None => Err(TargetMismatch)
      case Some(j) =>
        var same := SlotEquals(a, k, b.fields[j].value);
        if same.Err? then same
        else if !same.value then Ok(false)
        else FieldsEqualFrom(a, b, k + 1)
  }

  /**
   * `v1 != v2 && !v1.Equals(v2)` negated, for v1 the k-th value of `a`:
   * null equals only null (a null v1 against a non-null v2 throws), strings,
   * decimals and dates compare by value, nested objects by Equals(object),
   * lists by reference.
   */
  function SlotEquals(a: Record, k: nat, v2: Value): (r: Result<bool, Failure>)
    requires k < |a.fields|
    ensures IsNull(a.fields[k].value) ==> (r.Ok? <==> IsNull(v2)) && (r.Ok? ==> r.value)
    ensures !IsNull(a.fields[k].value) && !a.fields[k].value.Nested? ==> r.Ok? && (r.value <==> SameValue(a.fields[k].value, v2))
    ensures a.fields[k].value.Nested? && !v2.Nested? ==> r == Ok(false)
    decreases a, 0, 0
  {
    var v1 := a.fields[k].value;
    if IsNull(v1) then (if IsNull(v2) then Ok(true) else Err(NullReference))
    else match v1
      case Str(s) => Ok(v2.Str? && v2.text == s)
      case Dec(d) => Ok(v2.Dec? && v2.number == d)
      case Date(t) => Ok(v2.Date? && v2.ticks == t)
      case Nested(c) => if v2.Nested? then EqualsObject(c, Some(v2.record)) else Ok(false)
      case RecordList(id, _, _) => Ok(v2.RecordList? && v2.instance == id)
      case StringList(id, _) => Ok(v2.StringList? && v2.instance == id)
  }

  /**
   * operator ==: two nulls are equal, a null and a non-null are not;
   * otherwise Equals(BusinessObjectBase), without the type-name check.
   */
  function OpEquals(o1: Option<Record>, o2: Option<Record>): (r: Result<bool, Failure>)
    ensures o1.None? && o2.None? ==> r == Ok(true)
    ensures o1.None? != o2.None? ==> r == Ok(false)
  {
    if o1.None? || o2.None? then Ok(o1.None? && o2.None?) else EqualsTo(o1.value, o2.value)
  }

  /** operator !=. */
  function OpNotEquals(o1: Option<Record>, o2: Option<Record>): (r: Result<bool, Failure>)
    ensures o1.None? && o2.None? ==> r == Ok(false)
    ensures o1.None? != o2.None? ==> r == Ok(true)
  {
    if o1.None? || o2.None? then Ok(!(o1.None? && o2.None?))
    else match EqualsTo(o1.value, o2.value)
      case Err(e) => Err(e)
      case Ok(b) => Ok(!b)
  }

  /** != is the negation of ==, and both throw on the same operands. */
  lemma NotEqualsIsNegation(o1: Option<Record>, o2: Option<Record>)
    ensures OpNotEquals(o1, o2).Ok? <==> OpEquals(o1, o2).Ok?
    ensures OpNotEquals(o1, o2).Ok? ==> OpNotEquals(o1, o2).value == !OpEquals(o1, o2).value
  {
  }

  /** Once the type names agree, == and Equals(object) give the same answer. */
  lemma OpEqualsAgreesWithEqualsObject(a: Record, b: Record)
    requires a.typeName == b.typeName
    ensures OpEquals(Some(a), Some(b)) == EqualsObject(a, Some(b))
  {
  }

  /**
   * Equals(object) answers false for objects of different types, while ==
   * on objects of different types reads a's properties on b and throws.
   */
  lemma EqualsObjectVersusOperatorAcrossTypes(a: Record, b: Record)
    requires a.typeName != b.typeName && |a.fields| > 0
    ensures EqualsObject(a, Some(b)) == Ok(false)
    ensures OpEquals(Some(a), Some(b)) == Err(TargetMismatch)
  {
    assert EqualsTo(a, b) == FieldsEqualFrom(a, b, 0);
  }

  // ----- structural sameness -----

  /** Nested objects have unique property names at every depth (as C# classes do). */
  predicate WellFormed(r: Record)
    decreases r
  {
    UniqueNames(r.fields) &&
    forall k :: 0 <= k < |r.fields| && r.fields[k].value.Nested? ==> WellFormed(r.fields[k].value.record)
  }

  /**
   * Two objects of the same type holding the same data: the same
   * properties in the same order, equal scalars, nested objects with the
   * same data, and the very same list instances.
   */
  predicate SameData(a: Record, b: Record)
    decreases a, 1
  {
    a.typeName == b.typeName && |a.fields| == |b.fields| &&
    forall k :: 0 <= k < |a.fields| ==>
      a.fields[k].prop == b.fields[k].prop && SameValue(a.fields[k].value, b.fields[k].value)
  }

  /** Property values Equals treats as equal: the same scalar, nested objects with the same data, the same list instance. */
  predicate SameValue(x: Value, y: Value)
    decreases x, 0
  {
    match x
    case Nested(c) => y.Nested? && SameData(c, y.record)
    case RecordList(id, _, _) => y.RecordList? && y.instance == id
    case StringList(id, _) => y.StringList? && y.instance == id
    case _ => y == x
  }

  lemma SameNamesFound(a: Record, b: Record, k: nat)
    requires SameData(a, b) && UniqueNames(a.fields) && k < |a.fields|
    ensures FindField(b.fields, a.fields[k].prop.name) == Some(k)
  {
    var f := FindField(b.fields, a.fields[k].prop.name);
    assert b.fields[k].prop.name == a.fields[k].prop.name;
    assert f.Some? && f.value <= k;
    assert a.fields[f.value].prop.name == a.fields[k].prop.name;
  }

  /** Objects holding the same data are Equals, and == agrees. */
  lemma {:induction false} SameDataEquals(a: Record, b: Record)
    requires WellFormed(a) && SameData(a, b)
    ensures EqualsObject(a, Some(b)) == Ok(true)
    ensures OpEquals(Some(a), Some(b)) == Ok(true)
    decreases a, 1
  {
    SameDataFieldsEqual(a, b, 0);
  }

  lemma {:induction false} SameDataFieldsEqual(a: Record, b: Record, k: nat)
    requires WellFormed(a) && SameData(a, b) && k <= |a.fields|
    ensures FieldsEqualFrom(a, b, k) == Ok(true)
    decreases a, 0, |a.fields| - k
  {
    if k < |a.fields| {
      SameNamesFound(a, b, k);
      var v1 := a.fields[k].value;
      if v1.Nested? {
        SameDataEquals(v1.record, b.fields[k].value.record);
      }
      assert SlotEquals(a, k, b.fields[k].value) == Ok(true);
      SameDataFieldsEqual(a, b, k + 1);
    }
  }

  /**
   * Two objects of the same class, as far as Equals can tell: the same
   * type and properties, and each pair of values of the same kind (a
   * string against a string, a nested object against one of the same
   * class, and so on).
   */
  predicate Comparable(a: Record, b: Record)
    decreases a, 1
  {
    a.typeName == b.typeName && |a.fields| == |b.fields| &&
    forall k :: 0 <= k < |a.fields| ==>
      a.fields[k].prop == b.fields[k].prop && SameKind(a.fields[k].value, b.fields[k].value)
  }

  predicate SameKind(x: Value, y: Value)
    decreases x, 0
  {
    match x
    case Str(_) => y.Str?
    case Dec(_) => y.Dec?
    case Date(_) => y.Date?
    case Nested(c) => y.Nested? && Comparable(c, y.record)
    case RecordList(_, _, _) => y.RecordList?
    case StringList(_, _) => y.StringList?
  }

  /** The converse of SameDataEquals: objects of the same class that are Equals hold the same data. */
  lemma {:induction false} EqualsSameData(a: Record, b: Record)
    requires WellFormed(a) && Comparable(a, b)
    requires EqualsObject(a, Some(b)) == Ok(true)
    ensures SameData(a, b)
    decreases a, 1
  {
    FieldsEqualSameData(a, b, 0);
  }

  /** On objects of the same class, Equals answers true exactly when they hold the same data. */
  lemma EqualsIffSameData(a: Record, b: Record)
    requires WellFormed(a) && Comparable(a, b)
    ensures EqualsObject(a, Some(b)) == Ok(true) <==> SameData(a, b)
  {
    if SameData(a, b) {
      SameDataEquals(a, b);
    }
    if EqualsObject(a, Some(b)) == Ok(true) {
      EqualsSameData(a, b);
    }
  }

  lemma {:induction false} FieldsEqualSameData(a: Record, b: Record, k: nat)
    requires WellFormed(a) && Comparable(a, b) && k <= |a.fields|
    requires FieldsEqualFrom(a, b, k) == Ok(true)
    ensures forall j :: k <= j < |a.fields| ==> SameValue(a.fields[j].value, b.fields[j].value)
    decreases a, 0, |a.fields| - k
  {
    if k < |a.fields| {
      FoundAt(a, b, k);
      var v1, v2 := a.fields[k].value, b.fields[k].value;
      assert SlotEquals(a, k, v2) == Ok(true);
      if v1.Nested? {
        EqualsSameData(v1.record, v2.record);
      }
      assert SameValue(v1, v2);
      FieldsEqualSameData(a, b, k + 1);
    }
  }

  /** Equals(object) is reflexive on well-formed objects. */
  lemma EqualsReflexive(a: Record)
    requires WellFormed(a)
    ensures EqualsObject(a, Some(a)) == Ok(true)
  {
    assert SameData(a, a) by { SameDataReflexive(a); }
    SameDataEquals(a, a);
  }

  lemma {:induction false} SameDataReflexive(a: Record)
    ensures SameData(a, a)
    decreases a
  {
    forall k | 0 <= k < |a.fields| && a.fields[k].value.Nested?
      ensures SameData(a.fields[k].value.record, a.fields[k].value.record)
    {
      SameDataReflexive(a.fields[k].value.record);
    }
  }

  /** Holding the same data is symmetric. */
  lemma {:induction false} SameDataSymmetric(a: Record, b: Record)
    requires SameData(a, b)
    ensures SameData(b, a)
    decreases a
  {
    forall k | 0 <= k < |a.fields| && a.fields[k].value.Nested?
      ensures SameData(b.fields[k].value.record, a.fields[k].value.record)
    {
      SameDataSymmetric(a.fields[k].value.record, b.fields[k].value.record);
    }
  }

  /** An object holding the same data as a well-formed one is well-formed. */
  lemma {:induction false} SameDataWellFormed(a: Record, b: Record)
    requires SameData(a, b) && WellFormed(b)
    ensures WellFormed(a)
    decreases a
  {
    forall k | 0 <= k < |a.fields| && a.fields[k].value.Nested?
      ensures WellFormed(a.fields[k].value.record)
    {
      SameDataWellFormed(a.fields[k].value.record, b.fields[k].value.record);
    }
  }

  /**
   * Equals is not symmetric: when only the receiver's property is null the
   * call throws, while the reverse call answers false.
   */
  lemma EqualsNotSymmetric(name: string, options: XmlOptions)
    ensures var p := Property(name, None, false);
      var a := Record("T", options, [Slot(p, Str(None))]);
      var b := Record("T", options, [Slot(p, Str(Some("x")))]);
      EqualsObject(a, Some(b)) == Err(NullReference) && EqualsObject(b, Some(a)) == Ok(false)
  {
    var p := Property(name, None, false);
    var a := Record("T", options, [Slot(p, Str(None))]);
    var b := Record("T", options, [Slot(p, Str(Some("x")))]);
    assert FindField(b.fields, name) == Some(0);
    assert FindField(a.fields, name) == Some(0);
    assert SlotEquals(a, 0, b.fields[0].value) == Err(NullReference);
    assert SlotEquals(b, 0, a.fields[0].value) == Ok(false);
    assert FieldsEqualFrom(a, b, 0) == Err(NullReference);
    assert FieldsEqualFrom(b, a, 0) == Ok(false);
  }

  /**
   * Lists are compared by reference: two objects whose list properties are
   * distinct List instances are never Equals, whatever the lists hold.
   */
  lemma {:induction false} DistinctListsNeverEqual(a: Record, b: Record, k: nat)
    requires WellFormed(a) && a.typeName == b.typeName && |a.fields| == |b.fields|
    requires forall j :: 0 <= j < |a.fields| ==> a.fields[j].prop == b.fields[j].prop
    requires k < |a.fields|
    requires forall j :: 0 <= j < k ==> SlotEquals(a, j, b.fields[j].value) == Ok(true)
    requires a.fields[k].value.RecordList? && b.fields[k].value.RecordList?
    requires a.fields[k].value.instance != b.fields[k].value.instance
    ensures EqualsObject(a, Some(b)) == Ok(false)
  {
    DistinctListsFrom(a, b, k, 0);
  }

  lemma {:induction false} DistinctListsFrom(a: Record, b: Record, k: nat, i: nat)
    requires WellFormed(a) && a.typeName == b.typeName && |a.fields| == |b.fields|
    requires forall j :: 0 <= j < |a.fields| ==> a.fields[j].prop == b.fields[j].prop
    requires i <= k < |a.fields|
    requires forall j :: 0 <= j < k ==> SlotEquals(a, j, b.fields[j].value) == Ok(true)
    requires a.fields[k].value.RecordList? && b.fields[k].value.RecordList?
    requires a.fields[k].value.instance != b.fields[k].value.instance
    ensures FieldsEqualFrom(a, b, i) == Ok(false)
    decreases k - i
  {
    FoundAt(a, b, i);
    if i < k {
      DistinctListsFrom(a, b, k, i + 1);
    }
  }

  lemma FoundAt(a: Record, b: Record, i: nat)
    requires UniqueNames(a.fields) && |a.fields| == |b.fields| && i < |a.fields|
    requires forall j :: 0 <= j < |a.fields| ==> a.fields[j].prop == b.fields[j].prop
    ensures FindField(b.fields, a.fields[i].prop.name) == Some(i)
  {
    var f := FindField(b.fields, a.fields[i].prop.name);
    assert b.fields[i].prop.name == a.fields[i].prop.name;
    assert f.Some? && f.value <= i;
    assert a.fields[f.value].prop.name == a.fields[i].prop.name;
  }
}
