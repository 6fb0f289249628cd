/**
 * The data of a business object: its [DataProperty] descriptors, their
 * values, the per-instance XML options, and the descriptor table order
 * (GetAllDataProperties). Reflection is replaced by a record value that
 * carries its descriptors together with their values.
 */
module Records {
  import opened Wrappers
  import opened Text

  /** XmlOptions: per-record serialization switches (not inherited by children). */
  datatype XmlOptions = XmlOptions(
    serializeNullValues: bool,
    serializeEmptyStrings: bool,
    serializeEmptyBusinessObjects: bool,
    dateTimeFormat: Option<string>,
    decimalFormat: Option<string>)

  /**
   * A [DataProperty] descriptor: the property name, the optional explicit
   * order of the attribute, and whether [IgnoreXmlDateFormat] is present.
   */
  datatype Property = Property(name: string, order: Option<int>, ignoreXmlDateFormat: bool)

  /**
   * The value of a data property, tagged by the property's declared type.
   * `None` is a null value. A nested record and a list are never null: the
   * classes back them with readonly fields set in their constructors.
   * `instance` stands for the identity of a List<T> object, which is what
   * List<T>.Equals compares.
   */
  datatype Value =
    | Str(text: Option<string>)
    | Dec(number: Option<real>)
    | Date(ticks: Option<int>)
    | Nested(record: Record)
    | RecordList(instance: nat, itemType: string, items: seq<Record>)
    | StringList(instance: nat, strings: seq<Option<string>>)

  datatype Slot = Slot(prop: Property, value: Value)

  /** A business object: its concrete type name, its XmlOptions and its data properties. */
  datatype Record = Record(typeName: string, options: XmlOptions, fields: seq<Slot>)

  /** Exceptions the source can raise on the paths that are modelled. */
  datatype Failure =
    | NullReference        // a member called on a null value
    | TargetMismatch       // PropertyInfo.GetValue on an object that lacks the property
    | UnexpectedText       // ReadEndElement positioned on text content
    | ElementHasChildren   // ReadElementContentAs on an element with child elements
    | Unparsable           // ReadElementContentAs could not convert the text
    | NullableUnsupported  // ReadElementContentAs asked for a Nullable<T> type it cannot convert to
    | NoProgress           // ReadXmlList on a list whose items are not business objects: the reader never advances

  /** string.IsNullOrEmpty. */
  predicate IsNullOrEmpty(s: Option<string>) {
    s.None? || s.value == ""
  }

  // ----- property lookup (Type.GetProperty(name), FirstOrDefault by name) -----

  /** The position of the first data property called `name`. */
  function FindField(fields: seq<Slot>, name: string): (r: Option<nat>)
    ensures r.Some? ==> r.value < |fields| && fields[r.value].prop.name == name
    ensures r.Some? ==> forall k :: 0 <= k < r.value ==> fields[k].prop.name != name
    ensures r.None? ==> forall k :: 0 <= k < |fields| ==> fields[k].prop.name != name
  {
    if fields == [] then None
    else if fields[0].prop.name == name then Some(0)
    else match FindField(fields[1..], name)
      case None => None
      case Some(k) => Some(k + 1)
  }

  /** The lookup depends only on the property names, not on the values. */
  lemma FindFieldSameNames(a: seq<Slot>, b: seq<Slot>, name: string)
    requires |a| == |b| && forall i :: 0 <= i < |a| ==> a[i].prop.name == b[i].prop.name
    ensures FindField(a, name) == FindField(b, name)
  {
    var fa, fb := FindField(a, name), FindField(b, name);
    if fa.Some? && fb.Some? {
      assert !(fa.value < fb.value) && !(fb.value < fa.value);
    }
  }

  /** GetPropertyValue(record, name): the value of the named data property, if the record has one. */
  function Lookup(r: Record, name: Option<string>): Option<Value>
  {
    if name.None? then None
    else match FindField(r.fields, name.value)
      case None => None
      case Some(k) => Some(r.fields[k].value)
  }

  /** The same record with the value of its k-th data property replaced (PropertyInfo.SetValue). */
  function SetField(r: Record, k: nat, v: Value): (r': Record)
    requires k < |r.fields|
    ensures r'.typeName == r.typeName && r'.options == r.options && |r'.fields| == |r.fields|
    ensures r'.fields[k] == Slot(r.fields[k].prop, v)
    ensures forall j :: 0 <= j < |r.fields| && j != k ==> r'.fields[j] == r.fields[j]
  {
    r.(fields := r.fields[k := Slot(r.fields[k].prop, v)])
  }

  /** Property names are unique within a type, as C# requires. */
  predicate UniqueNames(fields: seq<Slot>) {
    forall i, j :: 0 <= i < j < |fields| ==> fields[i].prop.name != fields[j].prop.name
  }

  /**
   * Every object of a type has the data properties the type declares:
   * `schema` gives them per type name, at every depth.
   */
  predicate Conforms(r: Record, schema: string -> seq<Property>)
    decreases r
  {
    |r.fields| == |schema(r.typeName)| &&
    (forall k :: 0 <= k < |r.fields| ==> r.fields[k].prop == schema(r.typeName)[k]) &&
    forall k :: 0 <= k < |r.fields| && r.fields[k].value.Nested? ==> Conforms(r.fields[k].value.record, schema)
  }

  // ----- IsEmpty -----

  /** A null property value (a string, decimal? or DateTime? holding null). */
  predicate IsNull(v: Value) {
    (v.Str? && v.text.None?) || (v.Dec? && v.number.None?) || (v.Date? && v.ticks.None?)
  }

  /** A value that IsEmpty counts as empty: null, "", or an empty nested record. */
  predicate EmptyValue(v: Value)
    decreases v
  {
    match v
    case Str(t) => IsNullOrEmpty(t)
    case Dec(n) => n.None?
    case Date(t) => t.None?
    case Nested(c) => IsEmpty(c)
    case RecordList(_, _, _) => false
    case StringList(_, _) => false
  }

  /** IsEmpty(): every data property holds an empty value. */
  predicate IsEmpty(r: Record)
    decreases r
  {
    forall k :: 0 <= k < |r.fields| ==> EmptyValue(r.fields[k].value)
  }

  /** A type without data properties is empty. */
  lemma NoFieldsIsEmpty(r: Record)
    requires r.fields == []
    ensures IsEmpty(r)
  {
  }

  /** Any non-null decimal, date or list makes the record non-empty, whatever the other fields hold. */
  lemma NonNullScalarOrListMakesNonEmpty(r: Record, k: nat)
    requires k < |r.fields|
    requires match r.fields[k].value
      case Dec(n) => n.Some?
      case Date(t) => t.Some?
      case RecordList(_, _, _) => true
      case StringList(_, _) => true
      case _ => false
    ensures !IsEmpty(r)
  {
    assert !EmptyValue(r.fields[k].value);
  }

  // ----- GetAllDataProperties: OrderBy(Order), a stable sort -----

  /**
   * `a` sorts no later than `b`. A property without an explicit order sorts
   * after every explicitly ordered one.
   */
  predicate OrderLe(a: Option<int>, b: Option<int>) {
    b.None? || (a.Some? && a.value <= b.value)
  }

  predicate SortedByOrder(ps: seq<Property>) {
    forall i, j :: 0 <= i < j < |ps| ==> OrderLe(ps[i].order, ps[j].order)
  }

  /** The properties that carry exactly the order `key`, in sequence order. */
  function WithOrder(ps: seq<Property>, key: Option<int>): (r: seq<Property>)
    ensures |r| <= |ps|
  {
    if ps == [] then []
    else (if ps[0].order == key then [ps[0]] else []) + WithOrder(ps[1..], key)
  }

  /** Places `p` before the first property that does not sort strictly before it. */
  function InsertByOrder(p: Property, sorted: seq<Property>): seq<Property>
  {
    if sorted == [] || OrderLe(p.order, sorted[0].order) then [p] + sorted
    else [sorted[0]] + InsertByOrder(p, sorted[1..])
  }

  /** GetAllDataProperties(): the declared data properties ordered by their DataProperty order. */
  function DataProperties(declared: seq<Property>): seq<Property>
  {
    if declared == [] then [] else InsertByOrder(declared[0], DataProperties(declared[1..]))
  }

  lemma SortedTail(s: seq<Property>)
    requires SortedByOrder(s) && s != []
    ensures SortedByOrder(s[1..])
  {
    forall i, j | 0 <= i < j < |s[1..]| ensures OrderLe(s[1..][i].order, s[1..][j].order) {
      assert s[1..][i] == s[i + 1] && s[1..][j] == s[j + 1];
    }
  }

  lemma {:induction false} InsertByOrderPermutes(p: Property, s: seq<Property>)
    ensures multiset(InsertByOrder(p, s)) == multiset(s) + multiset{p}
  {
    if s != [] && !OrderLe(p.order, s[0].order) {
      InsertByOrderPermutes(p, s[1..]);
      assert s == [s[0]] + s[1..];
    }
  }

  lemma {:induction false} InsertByOrderSorted(p: Property, s: seq<Property>)
    requires SortedByOrder(s)
    ensures SortedByOrder(InsertByOrder(p, s))
  {
    var r := InsertByOrder(p, s);
    if s == [] || OrderLe(p.order, s[0].order) {
      forall i, j | 0 <= i < j < |r| ensures OrderLe(r[i].order, r[j].order) {
        if i == 0 {
          assert r[j] == s[j - 1];
          assert j == 1 || OrderLe(s[0].order, s[j - 1].order);
        } else {
          assert r[i] == s[i - 1] && r[j] == s[j - 1];
        }
      }
    } else {
      var t := InsertByOrder(p, s[1..]);
      SortedTail(s);
      InsertByOrderSorted(p, s[1..]);
      InsertByOrderPermutes(p, s[1..]);
      assert r == [s[0]] + t;
      forall j | 0 < j < |r| ensures OrderLe(r[0].order, r[j].order) {
        assert r[j] == t[j - 1];
        assert r[j] in multiset(s[1..]) + multiset{p};
        if r[j] != p {
          assert r[j] in s[1..];
          var m :| 0 <= m < |s[1..]| && s[1..][m] == r[j];
          assert s[m + 1] == r[j];
        }
      }
      forall i, j | 0 <= i < j < |r| ensures OrderLe(r[i].order, r[j].order) {
        if i > 0 {
          assert r[i] == t[i - 1] && r[j] == t[j - 1];
        }
      }
    }
  }

  lemma {:induction false} InsertByOrderStable(p: Property, s: seq<Property>, key: Option<int>)
    ensures WithOrder(InsertByOrder(p, s), key) == (if p.order == key then [p] else []) + WithOrder(s, key)
  {
    var r := InsertByOrder(p, s);
    var mine := if p.order == key then [p] else [];
    if s == [] || OrderLe(p.order, s[0].order) {
      assert r[0] == p && r[1..] == s;
      assert WithOrder(r, key) == mine + WithOrder(s, key);
    } else {
      var t := InsertByOrder(p, s[1..]);
      InsertByOrderStable(p, s[1..], key);
      var first := if s[0].order == key then [s[0]] else [];
      assert r[0] == s[0] && r[1..] == t;
      assert WithOrder(r, key) == first + WithOrder(t, key);
      assert WithOrder(s, key) == first + WithOrder(s[1..], key);
      assert first == [] || mine == [] by {
        assert s[0].order != p.order;
      }
      assert first + mine == mine + first;
    }
  }

  /** A property is placed after every property that sorts strictly before it, and before the rest. */
  lemma {:induction false} InsertByOrderSplit(p: Property, a: seq<Property>, b: seq<Property>)
    requires forall i :: 0 <= i < |a| ==> !OrderLe(p.order, a[i].order)
    requires b == [] || OrderLe(p.order, b[0].order)
    ensures InsertByOrder(p, a + b) == a + [p] + b
  {
    if a != [] {
      assert (a + b)[1..] == a[1..] + b;
      InsertByOrderSplit(p, a[1..], b);
      assert a == [a[0]] + a[1..];
    }
  }

  /**
   * GetAllDataProperties orders the declared properties by ascending
   * explicit order, unordered ones last; it is a permutation of the
   * declaration, and it is stable: the properties that share an order
   * value (in particular all unordered ones) keep their declaration order.
   */
  lemma {:induction false} DataPropertiesOrder(declared: seq<Property>)
    ensures SortedByOrder(DataProperties(declared))
    ensures multiset(DataProperties(declared)) == multiset(declared)
    ensures forall key :: WithOrder(DataProperties(declared), key) == WithOrder(declared, key)
  {
    if declared != [] {
      DataPropertiesOrder(declared[1..]);
      var s := DataProperties(declared[1..]);
      InsertByOrderSorted(declared[0], s);
      InsertByOrderPermutes(declared[0], s);
      forall key ensures WithOrder(DataProperties(declared), key) == WithOrder(declared, key) {
        InsertByOrderStable(declared[0], s, key);
      }
      assert declared == [declared[0]] + declared[1..];
    }
  }

  /** Unordered properties come after every explicitly ordered one, in declaration order. */
  lemma UnorderedLastInDeclarationOrder(declared: seq<Property>, i: nat, j: nat)
    requires i < j < |DataProperties(declared)|
    requires DataProperties(declared)[i].order.None?
    ensures DataProperties(declared)[j].order.None?
    ensures WithOrder(DataProperties(declared), None) == WithOrder(declared, None)
  {
    DataPropertiesOrder(declared);
  }
}
