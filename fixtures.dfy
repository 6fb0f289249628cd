/**
 * The test classes ComplexObject and SimpleObject, the mock built by the
 * test base class, and what the tests expect of them: the element order
 * of the XML, the round trip through XML, and which rules break.
 */
module Fixtures {
  import opened Wrappers
  import opened Text
  import opened Records
  import opened Validators
  import opened Engine
  import opened Equality
  import opened Codec

  // ----- SimpleObject -----

  /** SimpleObject's data properties, in declaration order. */
  const SimpleDeclared: seq<Property> := [
    Property("SimpleProperty", Some(1), false),
    Property("AnotherProperty", Some(0), false),
    Property("DecimalProperty", None, false),
    Property("DateTimeProperty", None, false),
    Property("DateTimeIgnoreXmlDateFormatProperty", None, true)]

  /** SimpleObject in data-property order: AnotherProperty, SimpleProperty, then the unordered ones. */
  const SimpleProperties: seq<Property> := [
    Property("AnotherProperty", Some(0), false),
    Property("SimpleProperty", Some(1), false),
    Property("DecimalProperty", None, false),
    Property("DateTimeProperty", None, false),
    Property("DateTimeIgnoreXmlDateFormatProperty", None, true)]

  lemma SimpleObjectOrder()
    ensures DataProperties(SimpleDeclared) == SimpleProperties
  {
    var d := SimpleDeclared;
    assert DataProperties(d[4..]) == [d[4]];
    OrderStep(d, 3, [], [d[4]]);
    OrderStep(d, 2, [], [d[3], d[4]]);
    OrderStep(d, 1, [], [d[2], d[3], d[4]]);
    OrderStep(d, 0, [d[1]], [d[2], d[3], d[4]]);
    SpliceFive(d[1], d[0], d[2], d[3], d[4]);
    SimplePropertiesPermuted();
  }

  /** SimpleProperties lists the declared properties with the first two swapped. */
  lemma SimplePropertiesPermuted()
    ensures var d := SimpleDeclared; [d[1], d[0], d[2], d[3], d[4]] == SimpleProperties
  {
  }

  /** A SimpleObject holding the two given strings and no decimal or dates. */
  function SimpleObject(opts: XmlOptions, simple: Option<string>, another: Option<string>): Record
  {
    Record("SimpleObject", opts, [
      Slot(SimpleProperties[0], Str(another)),
      Slot(SimpleProperties[1], Str(simple)),
      Slot(SimpleProperties[2], Dec(None)),
      Slot(SimpleProperties[3], Date(None)),
      Slot(SimpleProperties[4], Date(None))])
  }

  // ----- ComplexObject -----

  /** ComplexObject's data properties, in declaration order. */
  const ComplexDeclared: seq<Property> := [
    Property("LengthProperty", None, false),
    Property("RequiredProperty", None, false),
    Property("CountryProperty", Some(3), false),
    Property("DelegateProperty", Some(4), false),
    Property("RegexProperty", None, false),
    Property("FirstProperty", Some(0), false),
    Property("SecondProperty", Some(1), false),
    Property("AndProperty", Some(2), false),
    Property("SimpleObject", Some(5), false)]

  /** ComplexObject in data-property order. */
  const ComplexProperties: seq<Property> := [
    Property("FirstProperty", Some(0), false),
    Property("SecondProperty", Some(1), false),
    Property("AndProperty", Some(2), false),
    Property("CountryProperty", Some(3), false),
    Property("DelegateProperty", Some(4), false),
    Property("SimpleObject", Some(5), false),
    Property("LengthProperty", None, false),
    Property("RequiredProperty", None, false),
    Property("RegexProperty", None, false)]

  lemma ComplexObjectOrder()
    ensures DataProperties(ComplexDeclared) == ComplexProperties
  {
    var d := ComplexDeclared;
    ComplexObjectOrderedFromSecond();
    assert d[0..] == d;
    var a, b := [d[5], d[6], d[7], d[2], d[3], d[8]], [d[1], d[4]];
    OrderStep(d, 0, a, b);
    SpliceNine(d[5], d[6], d[7], d[2], d[3], d[8], d[0], d[1], d[4]);
    ComplexPropertiesPermuted();
  }

  lemma SpliceNine<T>(x0: T, x1: T, x2: T, x3: T, x4: T, x5: T, y: T, z0: T, z1: T)
    ensures [x0, x1, x2, x3, x4, x5] + [y] + [z0, z1] == [x0, x1, x2, x3, x4, x5, y, z0, z1]
  {
  }

  lemma SpliceFive<T>(x: T, y: T, z0: T, z1: T, z2: T)
    ensures [x] + [y] + [z0, z1, z2] == [x, y, z0, z1, z2]
  {
  }

  /** ComplexProperties lists the declared properties in the order 5, 6, 7, 2, 3, 8, 0, 1, 4. */
  lemma ComplexPropertiesPermuted()
    ensures var d := ComplexDeclared; [d[5], d[6], d[7], d[2], d[3], d[8], d[0], d[1], d[4]] == ComplexProperties
  {
  }

  /** The last five declared properties of ComplexObject, ordered: the four ordered ones, then RegexProperty. */
  lemma ComplexObjectOrderedTail()
    ensures var d := ComplexDeclared; DataProperties(d[4..]) == [d[5], d[6], d[7], d[8]] + [d[4]] + []
  {
    var d := ComplexDeclared;
    assert DataProperties(d[8..]) == [d[8]];
    OrderStep(d, 7, [], [d[8]]);
    OrderStep(d, 6, [], [d[7], d[8]]);
    OrderStep(d, 5, [], [d[6], d[7], d[8]]);
    OrderStep(d, 4, [d[5], d[6], d[7], d[8]], []);
  }

  /** The declared properties of ComplexObject but the first, ordered. */
  lemma ComplexObjectOrderedFromSecond()
    ensures var d := ComplexDeclared; DataProperties(d[1..]) == [d[5], d[6], d[7], d[2], d[3], d[8]] + [d[1]] + [d[4]]
  {
    var d := ComplexDeclared;
    ComplexObjectOrderedMiddle();
    OrderStep(d, 1, [d[5], d[6], d[7], d[2], d[3], d[8]], [d[4]]);
  }

  /** The last seven declared properties of ComplexObject, ordered. */
  lemma ComplexObjectOrderedMiddle()
    ensures var d := ComplexDeclared; DataProperties(d[2..]) == [d[5], d[6], d[7], d[2], d[3], d[8], d[4]]
  {
    var d := ComplexDeclared;
    ComplexObjectOrderedTail();
    OrderStep(d, 3, [d[5], d[6], d[7]], [d[8], d[4]]);
    OrderStep(d, 2, [d[5], d[6], d[7]], [d[3], d[8], d[4]]);
  }

  /** One step of ordering a declaration list: d[i] goes between a and b. */
  lemma OrderStep(d: seq<Property>, i: nat, a: seq<Property>, b: seq<Property>)
    requires i < |d| && DataProperties(d[i + 1..]) == a + b
    requires forall m :: 0 <= m < |a| ==> !OrderLe(d[i].order, a[m].order)
    requires b == [] || OrderLe(d[i].order, b[0].order)
    ensures DataProperties(d[i..]) == a + [d[i]] + b
  {
    assert d[i..][1..] == d[i + 1..];
    InsertByOrderSplit(d[i], a, b);
  }

  /** The data properties of each test class. */
  function Schema(typeName: string): seq<Property>
  {
    if typeName == "ComplexObject" then ComplexProperties
    else if typeName == "SimpleObject" then SimpleProperties
    else []
  }

  /**
   * A ComplexObject as the test classes build it: the constructor's
   * values, with the nested SimpleObject, SecondProperty and
   * RequiredProperty given.
   */
  function ComplexObject(opts: XmlOptions, simple: Record, second: Option<string>, required: Option<string>): (o: Record)
    ensures ComplexShaped(o) && o.fields[5].value.record == simple
  {
    Record("ComplexObject", opts, [
      Slot(ComplexProperties[0], Str(Some("first"))),
      Slot(ComplexProperties[1], Str(second)),
      Slot(ComplexProperties[2], Str(Some("And"))),
      Slot(ComplexProperties[3], Str(None)),
      Slot(ComplexProperties[4], Str(Some("dummy"))),
      Slot(ComplexProperties[5], Nested(simple)),
      Slot(ComplexProperties[6], Str(None)),
      Slot(ComplexProperties[7], Str(required)),
      Slot(ComplexProperties[8], Str(None))])
  }

  /** new ComplexObject(): the constructor sets DelegateProperty, FirstProperty and AndProperty and creates an empty SimpleObject. */
  function NewComplexObject(opts: XmlOptions, simpleOpts: XmlOptions): Record
  {
    ComplexObject(opts, SimpleObject(simpleOpts, None, None), None, None)
  }

  /** GetMock(): RequiredProperty "hello" and a SimpleObject with both strings set. */
  function Mock(opts: XmlOptions, simpleOpts: XmlOptions): Record
  {
    ComplexObject(opts, SimpleObject(simpleOpts, Some("SimpleProperty"), Some("AnotherProperty")), None, Some("hello"))
  }

  /** SimpleObject's property names are distinct. */
  lemma SimpleNamesUnique()
    ensures forall i, j :: 0 <= i < j < |SimpleProperties| ==> SimpleProperties[i].name != SimpleProperties[j].name
  {
  }

  /** ComplexObject's property names are distinct. */
  lemma ComplexNamesUnique()
    ensures forall i, j :: 0 <= i < j < |ComplexProperties| ==> ComplexProperties[i].name != ComplexProperties[j].name
  {
  }

  /** Every SimpleObject has SimpleObject's properties, with unique names. */
  lemma SimpleObjectConforms(opts: XmlOptions, simple: Option<string>, another: Option<string>)
    ensures Conforms(SimpleObject(opts, simple, another), Schema)
    ensures WellFormed(SimpleObject(opts, simple, another))
  {
    var r := SimpleObject(opts, simple, another);
    SimpleNamesUnique();
    assert forall k :: 0 <= k < |r.fields| ==> r.fields[k].prop == SimpleProperties[k];
  }

  /** A ComplexObject holding a conforming SimpleObject has ComplexObject's properties, with unique names. */
  lemma ComplexObjectConforms(opts: XmlOptions, simple: Record, second: Option<string>, required: Option<string>)
    requires simple.typeName == "SimpleObject" && Conforms(simple, Schema) && WellFormed(simple)
    ensures Conforms(ComplexObject(opts, simple, second, required), Schema)
    ensures WellFormed(ComplexObject(opts, simple, second, required))
  {
    var r := ComplexObject(opts, simple, second, required);
    ComplexNamesUnique();
    assert forall k :: 0 <= k < |r.fields| ==> r.fields[k].prop == ComplexProperties[k];
    assert forall k :: 0 <= k < |r.fields| && r.fields[k].value.Nested? ==> k == 5;
  }

  /** A blank SimpleObject is empty; setting SimpleProperty makes it non-empty. */
  lemma SimpleObjectEmptiness(opts: XmlOptions)
    ensures IsEmpty(SimpleObject(opts, None, None))
    ensures !IsEmpty(SimpleObject(opts, Some("hello"), None))
  {
    assert !EmptyValue(SimpleObject(opts, Some("hello"), None).fields[1].value);
  }

  // ----- XML -----

  /**
   * With null values not serialized, the mock with SecondProperty set is
   * written as FirstProperty, SecondProperty, AndProperty, DelegateProperty,
   * the SimpleObject element (AnotherProperty, SimpleProperty), and last
   * RequiredProperty; the null properties are left out.
   */
  lemma MockElementOrder(opts: XmlOptions, simpleOpts: XmlOptions, env: XmlEnv)
    requires !opts.serializeNullValues && !simpleOpts.serializeNullValues
    ensures var simple := SimpleObject(simpleOpts, Some("SimpleProperty"), Some("AnotherProperty"));
      var o := ComplexObject(opts, simple, Some("second"), Some("hello"));
      Encode(o, env).Ok? && Encode(o, env).value == [
        Leaf("FirstProperty", "first"),
        Leaf("SecondProperty", "second"),
        Leaf("AndProperty", "And"),
        Leaf("DelegateProperty", "dummy"),
        Branch("SimpleObject", [Leaf("AnotherProperty", "AnotherProperty"), Leaf("SimpleProperty", "SimpleProperty")]),
        Leaf("RequiredProperty", "hello")]
  {
    var simple := SimpleObject(simpleOpts, Some("SimpleProperty"), Some("AnotherProperty"));
    var a, b := Leaf("AnotherProperty", "AnotherProperty"), Leaf("SimpleProperty", "SimpleProperty");
    SimpleObjectElements(simpleOpts, env);
    var o := ComplexObject(opts, simple, Some("second"), Some("hello"));
    var first, second, and := Leaf("FirstProperty", "first"), Leaf("SecondProperty", "second"), Leaf("AndProperty", "And");
    var delegate, child := Leaf("DelegateProperty", "dummy"), Branch("SimpleObject", [a, b]);
    ComplexObjectLeadingElements(opts, simple, env);
    FieldEncodes(o, 6, [first, second, and, delegate], [child], env);
    FieldEncodes(o, 7, [first, second, and, delegate, child], [], env);
    FieldEncodes(o, 8, [first, second, and, delegate, child], [Leaf("RequiredProperty", "hello")], env);
    FieldEncodes(o, 9, [first, second, and, delegate, child, Leaf("RequiredProperty", "hello")], [], env);
  }

  /** A SimpleObject with both strings set writes AnotherProperty, then SimpleProperty, when nulls are not written. */
  lemma SimpleObjectElements(simpleOpts: XmlOptions, env: XmlEnv)
    requires !simpleOpts.serializeNullValues
    ensures var simple := SimpleObject(simpleOpts, Some("SimpleProperty"), Some("AnotherProperty"));
      !IsEmpty(simple) &&
      Encode(simple, env) == Ok([Leaf("AnotherProperty", "AnotherProperty"), Leaf("SimpleProperty", "SimpleProperty")])
  {
    var simple := SimpleObject(simpleOpts, Some("SimpleProperty"), Some("AnotherProperty"));
    var a, b := Leaf("AnotherProperty", "AnotherProperty"), Leaf("SimpleProperty", "SimpleProperty");
    FieldEncodes(simple, 1, [], [a], env);
    FieldEncodes(simple, 2, [a], [b], env);
    FieldEncodes(simple, 3, [a, b], [], env);
    FieldEncodes(simple, 4, [a, b], [], env);
    FieldEncodes(simple, 5, [a, b], [], env);
    assert !EmptyValue(simple.fields[0].value);
  }

  /** The first five properties of a ComplexObject with SecondProperty set: the null CountryProperty is left out. */
  lemma ComplexObjectLeadingElements(opts: XmlOptions, simple: Record, env: XmlEnv)
    requires !opts.serializeNullValues
    ensures var o := ComplexObject(opts, simple, Some("second"), Some("hello"));
      EncodeFields(o, 5, env).Ok? &&
      EncodeFields(o, 5, env).value == [Leaf("FirstProperty", "first"), Leaf("SecondProperty", "second"),
        Leaf("AndProperty", "And"), Leaf("DelegateProperty", "dummy")]
  {
    var o := ComplexObject(opts, simple, Some("second"), Some("hello"));
    var first, second, and := Leaf("FirstProperty", "first"), Leaf("SecondProperty", "second"), Leaf("AndProperty", "And");
    FieldEncodes(o, 1, [], [first], env);
    FieldEncodes(o, 2, [first], [second], env);
    FieldEncodes(o, 3, [first, second], [and], env);
    FieldEncodes(o, 4, [first, second, and], [], env);
    FieldEncodes(o, 5, [first, second, and], [Leaf("DelegateProperty", "dummy")], env);
  }

  /** One step of writing a fixture: the elements so far followed by those of field k - 1. */
  lemma FieldEncodes(r: Record, k: nat, pre: seq<Node>, e: seq<Node>, env: XmlEnv)
    requires 0 < k <= |r.fields| && EncodeFields(r, k - 1, env).Ok? && EncodeFields(r, k - 1, env).value == pre
    requires EncodeValue(r.fields[k - 1].prop, r.fields[k - 1].value, r.options, env) == Ok(e)
    ensures EncodeFields(r, k, env).Ok? && EncodeFields(r, k, env).value == pre + e
  {
  }

  /** Default options: nothing null or empty is written, no date or decimal format. */
  const PlainOptions: XmlOptions := XmlOptions(false, false, false, None, None)

  /**
   * A SimpleObject whose DecimalProperty is 1.5 is written as a single
   * DecimalProperty element, and ReadXml fails on that element: a
   * decimal? never survives the round trip.
   */
  lemma SimpleDecimalNotReadBack(env: XmlEnv)
    ensures var o := SetField(SimpleObject(PlainOptions, None, None), 2, Dec(Some(1.5)));
      var e := Leaf("DecimalProperty", env.decimalText(1.5, None));
      Encode(o, env) == Ok([e]) &&
      ReadRecord(SimpleObject(PlainOptions, None, None), Branch("SimpleObject", [e]), env) == Err(NullableUnsupported)
  {
    SimpleDecimalWritten(env);
    SimpleDecimalUnread(env);
  }

  lemma SimpleDecimalWritten(env: XmlEnv)
    ensures var o := SetField(SimpleObject(PlainOptions, None, None), 2, Dec(Some(1.5)));
      Encode(o, env) == Ok([Leaf("DecimalProperty", env.decimalText(1.5, None))])
  {
    var o := SetField(SimpleObject(PlainOptions, None, None), 2, Dec(Some(1.5)));
    var e := Leaf("DecimalProperty", env.decimalText(1.5, None));
    assert o.fields[0].value == Str(None) && o.fields[1].value == Str(None);
    assert o.fields[3].value == Date(None) && o.fields[4].value == Date(None);
    assert EncodeValue(o.fields[0].prop, o.fields[0].value, o.options, env) == Ok([]);
    assert EncodeValue(o.fields[1].prop, o.fields[1].value, o.options, env) == Ok([]);
    assert EncodeValue(o.fields[3].prop, o.fields[3].value, o.options, env) == Ok([]);
    assert EncodeValue(o.fields[4].prop, o.fields[4].value, o.options, env) == Ok([]);
    assert EncodeValue(o.fields[2].prop, o.fields[2].value, o.options, env) == Ok([e]);
    assert EncodeFields(o, 0, env) == Ok([]);
    FieldEncodes(o, 1, [], [], env);
    FieldEncodes(o, 2, [], [], env);
    FieldEncodes(o, 3, [], [e], env);
    FieldEncodes(o, 4, [e], [], env);
    FieldEncodes(o, 5, [e], [], env);
    assert [e] + [] == [e];
  }

  lemma SimpleDecimalUnread(env: XmlEnv)
    ensures ReadRecord(SimpleObject(PlainOptions, None, None), Branch("SimpleObject", [Leaf("DecimalProperty", env.decimalText(1.5, None))]), env)
      == Err(NullableUnsupported)
  {
    var t := SimpleObject(PlainOptions, None, None);
    var e := Leaf("DecimalProperty", env.decimalText(1.5, None));
    var parent := Branch("SimpleObject", [e]);
    assert t.fields[2].prop.name == "DecimalProperty";
    assert t.fields[0].prop.name != "DecimalProperty" && t.fields[1].prop.name != "DecimalProperty";
    assert FindField(t.fields, "DecimalProperty") == Some(2);
    assert ReadElement(t, parent, 0, env) == Err(NullableUnsupported);
  }

  /** With SerializeNullValues, the null FirstProperty is written as an empty element. */
  lemma NullFirstPropertyWritten(opts: XmlOptions, simpleOpts: XmlOptions, env: XmlEnv)
    requires opts.serializeNullValues
    ensures var o := Mock(opts, simpleOpts);
      var o' := SetField(o, 0, Str(None));
      Encode(o', env).Ok? ==> |Encode(o', env).value| > 0 && Encode(o', env).value[0] == Leaf("FirstProperty", "")
  {
    var o' := SetField(Mock(opts, simpleOpts), 0, Str(None));
    FieldEncodes(o', 1, [], [Leaf("FirstProperty", "")], env);
    if Encode(o', env).Ok? {
      EncodedPrefix(o', 1, 9, env);
    }
  }

  /** With SerializeEmptyStrings, an empty FirstProperty is written as an empty element. */
  lemma EmptyFirstPropertyWritten(opts: XmlOptions, simpleOpts: XmlOptions, env: XmlEnv)
    requires opts.serializeEmptyStrings
    ensures var o := Mock(opts, simpleOpts);
      var o' := SetField(o, 0, Str(Some("")));
      Encode(o', env).Ok? ==> |Encode(o', env).value| > 0 && Encode(o', env).value[0] == Leaf("FirstProperty", "")
  {
    var o' := SetField(Mock(opts, simpleOpts), 0, Str(Some("")));
    FieldEncodes(o', 1, [], [Leaf("FirstProperty", "")], env);
    if Encode(o', env).Ok? {
      EncodedPrefix(o', 1, 9, env);
    }
  }

  /**
   * The mock read back into a new ComplexObject is Equals to the original
   * (in both directions), whatever the formats and the empty-string and
   * empty-object switches, as long as null values are not written.
   */
  lemma MockRoundTrip(opts: XmlOptions, simpleOpts: XmlOptions, freshOpts: XmlOptions, freshSimpleOpts: XmlOptions, env: XmlEnv)
    requires !opts.serializeNullValues && !simpleOpts.serializeNullValues
    ensures var mock := Mock(opts, simpleOpts);
      Encode(mock, env).Ok? &&
      var g := ReadRecord(NewComplexObject(freshOpts, freshSimpleOpts), Branch("root", Encode(mock, env).value), env);
      g.Ok? && EqualsObject(g.value, Some(mock)) == Ok(true) && EqualsObject(mock, Some(g.value)) == Ok(true)
  {
    var mock, blank := Mock(opts, simpleOpts), NewComplexObject(freshOpts, freshSimpleOpts);
    MockReproducible(opts, simpleOpts, freshOpts, freshSimpleOpts, env);
    SimpleObjectConforms(simpleOpts, Some("SimpleProperty"), Some("AnotherProperty"));
    ComplexObjectConforms(opts, mock.fields[5].value.record, None, Some("hello"));
    assert WritesElement(mock) by { assert Written(mock.fields[0].prop, mock.fields[0].value, opts); }
    RoundTripEquals(mock, blank, "root", env);
  }

  /** A word of ASCII letters is written and read back unchanged. */
  lemma PlainWordKept(s: string)
    requires s != [] && forall i :: 0 <= i < |s| ==> 'A' <= s[i] <= 'Z' || 'a' <= s[i] <= 'z'
    ensures KeptText(s)
  {
    assert !IsWhiteSpace(s[0]);
  }

  /** The strings the fixtures write are all kept by the round trip. */
  lemma FixtureWordsKept()
    ensures KeptText("SimpleProperty") && KeptText("AnotherProperty")
    ensures KeptText("first") && KeptText("And") && KeptText("dummy") && KeptText("hello")
  {
    PlainWordKept("SimpleProperty");
    PlainWordKept("AnotherProperty");
    PlainWordKept("first");
    PlainWordKept("And");
    PlainWordKept("dummy");
    PlainWordKept("hello");
  }

  /** The SimpleObject of the mock is read back from its XML into a blank SimpleObject. */
  lemma SimpleObjectReproducible(simpleOpts: XmlOptions, freshSimpleOpts: XmlOptions, env: XmlEnv)
    requires !simpleOpts.serializeNullValues
    ensures Reproducible(SimpleObject(simpleOpts, Some("SimpleProperty"), Some("AnotherProperty")), SimpleObject(freshSimpleOpts, None, None), env)
  {
    var simple, blank := SimpleObject(simpleOpts, Some("SimpleProperty"), Some("AnotherProperty")), SimpleObject(freshSimpleOpts, None, None);
    SimpleObjectConforms(simpleOpts, Some("SimpleProperty"), Some("AnotherProperty"));
    forall k | 0 <= k < 5
      ensures blank.fields[k].prop == simple.fields[k].prop
      ensures RoundTrips(simple.fields[k].prop, simple.fields[k].value, blank.fields[k].value, simpleOpts, env)
    {
      SimpleFieldRoundTrips(simpleOpts, freshSimpleOpts, env, k);
    }
  }

  /** Property k of the mock's SimpleObject round-trips. */
  lemma SimpleFieldRoundTrips(simpleOpts: XmlOptions, freshSimpleOpts: XmlOptions, env: XmlEnv, k: nat)
    requires !simpleOpts.serializeNullValues && k < 5
    ensures var simple, blank := SimpleObject(simpleOpts, Some("SimpleProperty"), Some("AnotherProperty")), SimpleObject(freshSimpleOpts, None, None);
      blank.fields[k].prop == simple.fields[k].prop &&
      RoundTrips(simple.fields[k].prop, simple.fields[k].value, blank.fields[k].value, simpleOpts, env)
  {
    FixtureWordsKept();
  }

  /** The mock is read back from its XML into a new ComplexObject, as long as null values are not written. */
  lemma MockReproducible(opts: XmlOptions, simpleOpts: XmlOptions, freshOpts: XmlOptions, freshSimpleOpts: XmlOptions, env: XmlEnv)
    requires !opts.serializeNullValues && !simpleOpts.serializeNullValues
    ensures Reproducible(Mock(opts, simpleOpts), NewComplexObject(freshOpts, freshSimpleOpts), env)
  {
    var mock, blank := Mock(opts, simpleOpts), NewComplexObject(freshOpts, freshSimpleOpts);
    var simple := mock.fields[5].value.record;
    SimpleObjectReproducible(simpleOpts, freshSimpleOpts, env);
    SimpleObjectConforms(simpleOpts, Some("SimpleProperty"), Some("AnotherProperty"));
    ComplexObjectConforms(opts, simple, None, Some("hello"));
    assert WritesElement(simple) by { assert Written(simple.fields[0].prop, simple.fields[0].value, simpleOpts); }
    forall k | 0 <= k < 9
      ensures blank.fields[k].prop == mock.fields[k].prop
      ensures RoundTrips(mock.fields[k].prop, mock.fields[k].value, blank.fields[k].value, opts, env)
    {
      if k == 5 {
        MockNestedRoundTrips(opts, simpleOpts, freshOpts, freshSimpleOpts, env);
      } else {
        MockFieldRoundTrips(opts, simpleOpts, freshOpts, freshSimpleOpts, env, k);
      }
    }
  }

  /** String property k of the mock round-trips into a new ComplexObject. */
  lemma MockFieldRoundTrips(opts: XmlOptions, simpleOpts: XmlOptions, freshOpts: XmlOptions, freshSimpleOpts: XmlOptions, env: XmlEnv, k: nat)
    requires !opts.serializeNullValues && k < 9 && k != 5
    ensures var mock, blank := Mock(opts, simpleOpts), NewComplexObject(freshOpts, freshSimpleOpts);
      blank.fields[k].prop == mock.fields[k].prop &&
      RoundTrips(mock.fields[k].prop, mock.fields[k].value, blank.fields[k].value, opts, env)
  {
    var mock, blank := Mock(opts, simpleOpts), NewComplexObject(freshOpts, freshSimpleOpts);
    FixtureWordsKept();
    match k
    case 0 => TextRoundTrips(mock.fields[0].prop, "first", blank.fields[0].value, opts, env);
    case 2 => TextRoundTrips(mock.fields[2].prop, "And", blank.fields[2].value, opts, env);
    case 4 => TextRoundTrips(mock.fields[4].prop, "dummy", blank.fields[4].value, opts, env);
    case 7 => TextRoundTrips(mock.fields[7].prop, "hello", blank.fields[7].value, opts, env);
    case _ => NullTextRoundTrips(mock.fields[k].prop, opts, env);
  }

  /** The mock's nested SimpleObject round-trips into the new ComplexObject's empty one. */
  lemma MockNestedRoundTrips(opts: XmlOptions, simpleOpts: XmlOptions, freshOpts: XmlOptions, freshSimpleOpts: XmlOptions, env: XmlEnv)
    requires var simple := SimpleObject(simpleOpts, Some("SimpleProperty"), Some("AnotherProperty"));
      Reproducible(simple, SimpleObject(freshSimpleOpts, None, None), env) && WritesElement(simple)
    ensures var mock, blank := Mock(opts, simpleOpts), NewComplexObject(freshOpts, freshSimpleOpts);
      blank.fields[5].prop == mock.fields[5].prop &&
      RoundTrips(mock.fields[5].prop, mock.fields[5].value, blank.fields[5].value, opts, env)
  {
    var mock, blank := Mock(opts, simpleOpts), NewComplexObject(freshOpts, freshSimpleOpts);
    var simple := SimpleObject(simpleOpts, Some("SimpleProperty"), Some("AnotherProperty"));
    assert !IsEmpty(simple) by { assert !EmptyValue(simple.fields[0].value); }
    assert mock.fields[5].value == Nested(simple);
    assert blank.fields[5].value == Nested(SimpleObject(freshSimpleOpts, None, None));
    NestedRoundTrips(mock.fields[5].prop, simple, SimpleObject(freshSimpleOpts, None, None), opts, env);
  }

  /** A non-empty child that round-trips and writes an element is read back into the fresh child. */
  lemma NestedRoundTrips(p: Property, c: Record, fc: Record, opts: XmlOptions, env: XmlEnv)
    requires c.typeName == p.name && !IsEmpty(c) && Reproducible(c, fc, env) && WritesElement(c)
    ensures RoundTrips(p, Nested(c), Nested(fc), opts, env)
  {
  }

  /** A kept, non-empty string is written and read back into any string property. */
  lemma TextRoundTrips(p: Property, s: string, fv: Value, opts: XmlOptions, env: XmlEnv)
    requires s != [] && KeptText(s) && fv.Str?
    ensures RoundTrips(p, Str(Some(s)), fv, opts, env)
  {
  }

  /** A null string is not written when nulls are not serialised, and the fresh null stays. */
  lemma NullTextRoundTrips(p: Property, opts: XmlOptions, env: XmlEnv)
    requires !opts.serializeNullValues
    ensures RoundTrips(p, Str(None), Str(None), opts, env)
  {
  }

  /**
   * A ListOfBusinessObject does not round-trip its list: the items are
   * written as elements named after their type, ComplexObject, which no
   * data property of ListOfBusinessObject is named after, so reading skips
   * them and the list keeps what it held.
   */
  lemma ListItemsSkippedOnRead(opts: XmlOptions, items: seq<Record>, target: Record, env: XmlEnv)
    requires forall m :: 0 <= m < |items| ==> items[m].typeName == "ComplexObject"
    requires forall k :: 0 <= k < |target.fields| ==> target.fields[k].prop.name == "ListOfObjects"
    requires |target.fields| == 1
    ensures var o := Record("ListOfBusinessObject", opts, [Slot(Property("ListOfObjects", None, false), RecordList(0, "ComplexObject", items))]);
      Encode(o, env).Ok? ==> ReadRecord(target, Branch("root", Encode(o, env).value), env) == Ok(target)
  {
    var o := Record("ListOfBusinessObject", opts, [Slot(Property("ListOfObjects", None, false), RecordList(0, "ComplexObject", items))]);
    var e := Encode(o, env);
    if e.Ok? {
      var v := o.fields[0].value;
      assert !IsNull(v);
      assert EncodeValue(o.fields[0].prop, v, o.options, env) == EncodeItems(v, |v.items|, env);
      assert EncodeFields(o, 0, env) == Ok([]);
      assert e == EncodeFields(o, 1, env);
      assert EncodeItems(v, |items|, env).Ok? && e.value == [] + EncodeItems(v, |items|, env).value;
      ItemsEncoding(v, |items|, env);
      var parent := Branch("root", e.value);
      forall j | 0 <= j < |e.value| ensures FindField(target.fields, e.value[j].name).None? {
        assert e.value[j].name == "ComplexObject";
      }
      UnknownElementsSkipped(target, parent, 0, env);
    }
  }

  // ----- validation -----

  /** ComplexObject.CreateRules: the base's (empty) list and seven rules of its own; `codes` is the table of two-letter country codes. */
  function ComplexRules(codes: seq<string>): seq<Validator>
  {
    [LengthValidatorBetween(Some("LengthProperty"), 1, 5),
     RequiredValidatorDefault(Some("RequiredProperty")),
     CountryValidatorDefault(Some("CountryProperty"), codes),
     DelegateValidator(Some("DelegateProperty"), Some("This is a fail"), DelegateIsDummy),
     RegexValidatorDefault(Some("RegexProperty"), Some("dummy")),
     XorRequiredValidator(["FirstProperty", "SecondProperty"], Some("This is a fail")),
     AndRule()]
  }

  /** The seventh rule: AndProperty must have length 3 and read "And". */
  function AndRule(): Validator {
    AndCompositeValidator(Some("AndProperty"), [
      LengthValidatorOf(None, 3),
      DelegateValidator(None, Some("fail"), AndIsAnd)])
  }

  /** The closure of the DelegateProperty rule: DelegateProperty == "dummy". */
  predicate DelegateIsDummy(o: Record) {
    Lookup(o, Some("DelegateProperty")) == Some(Str(Some("dummy")))
  }

  /** The closure of the composite's delegate: AndProperty == "And". */
  predicate AndIsAnd(o: Record) {
    Lookup(o, Some("AndProperty")) == Some(Str(Some("And")))
  }

  /** The test host: ComplexObject has its rules, SimpleObject (and anything else) none. */
  function TestHost(codes: seq<string>, createInstance: string -> Record, matches: (string, string) -> bool): (h: Host)
    ensures h.createRules("ComplexObject") == ComplexRules(codes)
    ensures h.createRules("SimpleObject") == []
  {
    Host(t => if t == "ComplexObject" then ComplexRules(codes) else [], createInstance, matches)
  }

  /** A ComplexObject: its nine properties in data-property order, every one a string but the SimpleObject. */
  predicate ComplexShaped(o: Record) {
    o.typeName == "ComplexObject" && |o.fields| == 9 &&
    (forall k :: 0 <= k < 9 ==> o.fields[k].prop == ComplexProperties[k]) &&
    (forall k :: 0 <= k < 9 && k != 5 ==> o.fields[k].value.Str?) &&
    o.fields[5].value.Nested?
  }

  /** A string property of a ComplexObject, by position. */
  function TextOf(o: Record, k: nat): Option<string>
    requires ComplexShaped(o) && k < 9 && k != 5
  {
    o.fields[k].value.text
  }

  /** Looking a ComplexObject property up by its name finds that property. */
  lemma ComplexLookup(o: Record, k: nat)
    requires ComplexShaped(o) && k < 9
    ensures Lookup(o, Some(ComplexProperties[k].name)) == Some(o.fields[k].value)
  {
    ComplexNamesUnique();
    var f := FindField(o.fields, ComplexProperties[k].name);
    assert f == Some(k);
  }

  /**
   * What rule j of ComplexObject objects to: the length of LengthProperty
   * outside [1, 5], RequiredProperty not set, CountryProperty not a known
   * code, DelegateProperty not "dummy", RegexProperty not matching "dummy",
   * FirstProperty and SecondProperty both set or both unset, AndProperty
   * not "And".
   */
  predicate Violation(o: Record, codes: seq<string>, matches: (string, string) -> bool, j: nat)
    requires ComplexShaped(o) && j < 7
  {
    if j == 0 then !LengthOk(TextOf(o, 6), 1, 5)
    else if j == 1 then IsNullOrEmpty(TextOf(o, 7))
    else if j == 2 then !IsNullOrEmpty(TextOf(o, 3)) && TextOf(o, 3).value !in codes
    else if j == 3 then TextOf(o, 4) != Some("dummy")
    else if j == 4 then !IsNullOrEmpty(TextOf(o, 8)) && !matches(TextOf(o, 8).value, "dummy")
    else if j == 5 then IsNullOrEmpty(TextOf(o, 0)) == IsNullOrEmpty(TextOf(o, 1))
    else TextOf(o, 2) != Some("And")
  }

  /** Each of ComplexObject's rules can be validated, and is broken exactly on its violation. */
  lemma ComplexVerdicts(o: Record, codes: seq<string>, matches: (string, string) -> bool)
    requires ComplexShaped(o)
    ensures RulesBound(ComplexRules(codes), o, "")
    ensures forall j :: 0 <= j < 7 ==>
      Bound(ComplexRules(codes)[j], o) && (Broken(ComplexRules(codes)[j], o, matches) <==> Violation(o, codes, matches, j))
  {
    forall j | 0 <= j < 7
      ensures Bound(ComplexRules(codes)[j], o) && (Broken(ComplexRules(codes)[j], o, matches) <==> Violation(o, codes, matches, j))
    {
      if j == 0 {
        ComplexLengthRuleVerdict(o, codes, matches);
      } else if j == 1 {
        ComplexRequiredRuleVerdict(o, codes, matches);
      } else if j == 2 {
        ComplexCountryRuleVerdict(o, codes, matches);
      } else if j == 3 {
        ComplexDelegateRuleVerdict(o, codes, matches);
      } else if j == 4 {
        ComplexRegexRuleVerdict(o, codes, matches);
      } else if j == 5 {
        ComplexXorVerdict(o, codes, matches);
      } else {
        ComplexAndVerdict(o, codes, matches);
      }
    }
  }

  /** The rule is broken unless LengthProperty has length 1 to 5 (or is null or empty). */
  lemma ComplexLengthRuleVerdict(o: Record, codes: seq<string>, matches: (string, string) -> bool)
    requires ComplexShaped(o)
    ensures var rules := ComplexRules(codes);
      Bound(rules[0], o) && (Broken(rules[0], o, matches) <==> !LengthOk(TextOf(o, 6), 1, 5))
  {
    ComplexLookup(o, 6);
  }

  /** The rule is broken unless RequiredProperty is neither null nor empty. */
  lemma ComplexRequiredRuleVerdict(o: Record, codes: seq<string>, matches: (string, string) -> bool)
    requires ComplexShaped(o)
    ensures var rules := ComplexRules(codes);
      Bound(rules[1], o) && (Broken(rules[1], o, matches) <==> IsNullOrEmpty(TextOf(o, 7)))
  {
    ComplexLookup(o, 7);
  }

  /** The rule is broken unless CountryProperty is null, empty or one of the codes. */
  lemma ComplexCountryRuleVerdict(o: Record, codes: seq<string>, matches: (string, string) -> bool)
    requires ComplexShaped(o)
    ensures var rules := ComplexRules(codes);
      Bound(rules[2], o) && (Broken(rules[2], o, matches) <==> !IsNullOrEmpty(TextOf(o, 3)) && TextOf(o, 3).value !in codes)
  {
    ComplexLookup(o, 3);
  }

  /** The rule is broken unless DelegateProperty reads "dummy"; the delegate looks at the object itself. */
  lemma ComplexDelegateRuleVerdict(o: Record, codes: seq<string>, matches: (string, string) -> bool)
    requires ComplexShaped(o)
    ensures var rules := ComplexRules(codes);
      Bound(rules[3], o) && (Broken(rules[3], o, matches) <==> TextOf(o, 4) != Some("dummy"))
  {
    ComplexLookup(o, 4);
  }

  /** The rule is broken unless RegexProperty is null, empty or matched by "dummy". */
  lemma ComplexRegexRuleVerdict(o: Record, codes: seq<string>, matches: (string, string) -> bool)
    requires ComplexShaped(o)
    ensures var rules := ComplexRules(codes);
      Bound(rules[4], o) && (Broken(rules[4], o, matches) <==> !IsNullOrEmpty(TextOf(o, 8)) && !matches(TextOf(o, 8).value, "dummy"))
  {
    ComplexLookup(o, 8);
  }

  /** The XorRequiredValidator over FirstProperty and SecondProperty. */
  lemma ComplexXorVerdict(o: Record, codes: seq<string>, matches: (string, string) -> bool)
    requires ComplexShaped(o)
    ensures var rules := ComplexRules(codes);
      Bound(rules[5], o) && (Broken(rules[5], o, matches) <==> IsNullOrEmpty(TextOf(o, 0)) == IsNullOrEmpty(TextOf(o, 1)))
  {
    var rules := ComplexRules(codes);
    ComplexLookup(o, 0);
    ComplexLookup(o, 1);
    XorOfTwo(rules[5], o, o, matches, "FirstProperty", "SecondProperty");
  }

  /** The AndCompositeValidator on AndProperty: its length is 3 and it reads "And". */
  lemma ComplexAndVerdict(o: Record, codes: seq<string>, matches: (string, string) -> bool)
    requires ComplexShaped(o)
    ensures var rules := ComplexRules(codes);
      Bound(rules[6], o) && (Broken(rules[6], o, matches) <==> TextOf(o, 2) != Some("And"))
  {
    assert ComplexRules(codes)[6] == AndRule();
    ComplexLookup(o, 2);
    AndRuleVerdict(o, TextOf(o, 2), matches);
  }

  lemma AndRuleVerdict(o: Record, text: Option<string>, matches: (string, string) -> bool)
    requires Lookup(o, Some("AndProperty")) == Some(Str(text))
    ensures Bound(AndRule(), o) && (Broken(AndRule(), o, matches) <==> text != Some("And"))
  {
    var and := AndRule();
    assert forall i :: 0 <= i < 2 ==> PropertyName(and.kind.children[i]) == Some("AndProperty");
    AndCompositeSemantics(and, o, o, matches);
    var cs := and.kind.children;
    assert Evaluate(cs[1], o, o, matches).passed <==> text == Some("And");
    assert text == Some("And") ==> Evaluate(cs[0], o, o, matches).passed;
  }

  /** A SimpleObject holds no nested object and has no rules of its own: it is always valid. */
  lemma SimpleObjectValid(simple: Record, host: Host)
    requires simple.typeName == "SimpleObject" && host.createRules("SimpleObject") == []
    requires forall k :: 0 <= k < |simple.fields| ==> !simple.fields[k].value.Nested?
    ensures Checkable(simple, host) && IsValid(simple, host)
  {
    assert Checkable(simple, host);
    forall k | 0 <= k < |simple.fields| ensures ChildErrors(simple, host)[k].None? {
      ChildErrorsAt(simple, host, k);
    }
    IsValidIff(simple, host);
  }

  /**
   * A ComplexObject is valid exactly when none of its own rules is broken:
   * its SimpleObject, when consulted, never adds an error.
   */
  lemma ComplexValidIff(o: Record, codes: seq<string>, createInstance: string -> Record, matches: (string, string) -> bool)
    requires ComplexShaped(o)
    requires var simple := o.fields[5].value.record;
      simple.typeName == "SimpleObject" && forall k :: 0 <= k < |simple.fields| ==> !simple.fields[k].value.Nested?
    ensures Checkable(o, TestHost(codes, createInstance, matches))
    ensures IsValid(o, TestHost(codes, createInstance, matches)) <==> BrokenRules(ComplexRules(codes), o, "", matches) == []
  {
    var host := TestHost(codes, createInstance, matches);
    ComplexChildrenValid(o, codes, host);
    IsValidIff(o, host);
  }

  /** Every rule of ComplexObject can be validated against a ComplexObject. */
  lemma ComplexRulesBound(o: Record, codes: seq<string>, matches: (string, string) -> bool)
    requires ComplexShaped(o)
    ensures RulesBound(ComplexRules(codes), o, "")
  {
    ComplexVerdicts(o, codes, matches);
  }

  /** A ComplexObject is checkable, and its one nested object, a SimpleObject, adds no error. */
  lemma ComplexChildrenValid(o: Record, codes: seq<string>, host: Host)
    requires ComplexShaped(o) && host.createRules("ComplexObject") == ComplexRules(codes) && host.createRules("SimpleObject") == []
    requires var simple := o.fields[5].value.record;
      simple.typeName == "SimpleObject" && forall k :: 0 <= k < |simple.fields| ==> !simple.fields[k].value.Nested?
    ensures Checkable(o, host) && forall k :: 0 <= k < |o.fields| ==> ChildErrors(o, host)[k].None?
  {
    var simple := o.fields[5].value.record;
    ComplexRulesBound(o, codes, host.matches);
    SimpleObjectValid(simple, host);
    assert forall k :: 0 <= k < 9 && Reports(o.fields[k]) ==> k == 5;
    assert Checkable(o, host);
    forall k | 0 <= k < 9 ensures ChildErrors(o, host)[k].None? {
      ChildErrorsAt(o, host, k);
    }
  }

  /** When exactly rule i of ComplexObject fails, GetBrokenRules() returns it alone and the object is invalid. */
  lemma OnlyRuleBroken(o: Record, codes: seq<string>, createInstance: string -> Record, matches: (string, string) -> bool, i: nat)
    requires ComplexShaped(o) && i < 7
    requires var simple := o.fields[5].value.record;
      simple.typeName == "SimpleObject" && forall k :: 0 <= k < |simple.fields| ==> !simple.fields[k].value.Nested?
    requires forall j :: 0 <= j < 7 ==> (Violation(o, codes, matches, j) <==> j == i)
    ensures RulesBound(ComplexRules(codes), o, "") && BrokenRules(ComplexRules(codes), o, "", matches) == [ComplexRules(codes)[i]]
    ensures Checkable(o, TestHost(codes, createInstance, matches)) && !IsValid(o, TestHost(codes, createInstance, matches))
  {
    OnlyComplexRuleBroken(o, codes, matches, i);
    ComplexValidIff(o, codes, createInstance, matches);
  }

  lemma OnlyComplexRuleBroken(o: Record, codes: seq<string>, matches: (string, string) -> bool, i: nat)
    requires ComplexShaped(o) && i < 7
    requires forall j :: 0 <= j < 7 ==> (Violation(o, codes, matches, j) <==> j == i)
    ensures RulesBound(ComplexRules(codes), o, "") && BrokenRules(ComplexRules(codes), o, "", matches) == [ComplexRules(codes)[i]]
  {
    ComplexVerdicts(o, codes, matches);
    SingleBrokenRule(ComplexRules(codes), o, "", matches, i);
  }

  /** When no rule of ComplexObject fails, GetBrokenRules() is empty and the object is valid. */
  lemma NoRuleBroken(o: Record, codes: seq<string>, createInstance: string -> Record, matches: (string, string) -> bool)
    requires ComplexShaped(o)
    requires var simple := o.fields[5].value.record;
      simple.typeName == "SimpleObject" && forall k :: 0 <= k < |simple.fields| ==> !simple.fields[k].value.Nested?
    requires forall j :: 0 <= j < 7 ==> !Violation(o, codes, matches, j)
    ensures RulesBound(ComplexRules(codes), o, "") && BrokenRules(ComplexRules(codes), o, "", matches) == []
    ensures Checkable(o, TestHost(codes, createInstance, matches)) && IsValid(o, TestHost(codes, createInstance, matches))
  {
    NoComplexRuleBroken(o, codes, matches);
    ComplexValidIff(o, codes, createInstance, matches);
  }

  lemma NoComplexRuleBroken(o: Record, codes: seq<string>, matches: (string, string) -> bool)
    requires ComplexShaped(o)
    requires forall j :: 0 <= j < 7 ==> !Violation(o, codes, matches, j)
    ensures RulesBound(ComplexRules(codes), o, "") && BrokenRules(ComplexRules(codes), o, "", matches) == []
  {
    ComplexVerdicts(o, codes, matches);
    NoneBrokenIffAllPass(ComplexRules(codes), o, "", matches);
  }

  /** new ComplexObject() breaks one rule, the RequiredValidator on RequiredProperty. */
  lemma NewComplexObjectInvalid(opts: XmlOptions, simpleOpts: XmlOptions, codes: seq<string>, createInstance: string -> Record, matches: (string, string) -> bool)
    ensures var o, rules, host := NewComplexObject(opts, simpleOpts), ComplexRules(codes), TestHost(codes, createInstance, matches);
      Checkable(o, host) && !IsValid(o, host) && RulesBound(rules, o, "") && BrokenRules(rules, o, "", matches) == [rules[1]]
  {
    var o := NewComplexObject(opts, simpleOpts);
    assert ComplexShaped(o);
    assert TextOf(o, 7).None?;
    OnlyRuleBroken(o, codes, createInstance, matches, 1);
  }

  /** Setting RequiredProperty of a new ComplexObject to "hello" makes it valid. */
  lemma RequiredPropertySetValid(opts: XmlOptions, simpleOpts: XmlOptions, codes: seq<string>, createInstance: string -> Record, matches: (string, string) -> bool)
    ensures var o, host := ComplexObject(opts, SimpleObject(simpleOpts, None, None), None, Some("hello")), TestHost(codes, createInstance, matches);
      Checkable(o, host) && IsValid(o, host)
  {
    var o := ComplexObject(opts, SimpleObject(simpleOpts, None, None), None, Some("hello"));
    NoRuleBroken(o, codes, createInstance, matches);
  }

  /** GetMock() is valid: none of its rules is broken and its SimpleObject adds no error. */
  lemma MockValid(opts: XmlOptions, simpleOpts: XmlOptions, codes: seq<string>, createInstance: string -> Record, matches: (string, string) -> bool)
    ensures var o, rules, host := Mock(opts, simpleOpts), ComplexRules(codes), TestHost(codes, createInstance, matches);
      Checkable(o, host) && IsValid(o, host) && RulesBound(rules, o, "") && BrokenRules(rules, o, "", matches) == []
  {
    var o := Mock(opts, simpleOpts);
    assert ComplexShaped(o);
    NoRuleBroken(o, codes, createInstance, matches);
  }

  /** The mock with string property k set to `text` (the tests' `o.XProperty = text`). */
  function MockWith(opts: XmlOptions, simpleOpts: XmlOptions, k: nat, text: Option<string>): (o: Record)
    requires k < 9 && k != 5
    ensures ComplexShaped(o) && o.fields[5] == Mock(opts, simpleOpts).fields[5]
    ensures TextOf(o, k) == text
    ensures forall j :: 0 <= j < 9 && j != 5 && j != k ==> TextOf(o, j) == TextOf(Mock(opts, simpleOpts), j)
  {
    WithText(Mock(opts, simpleOpts), k, text)
  }

  /** o with string property k set to `text`. */
  function WithText(o: Record, k: nat, text: Option<string>): (o': Record)
    requires ComplexShaped(o) && k < 9 && k != 5
    ensures ComplexShaped(o') && o'.fields[5] == o.fields[5]
    ensures TextOf(o', k) == text
    ensures forall j :: 0 <= j < 9 && j != 5 && j != k ==> TextOf(o', j) == TextOf(o, j)
  {
    SetField(o, k, Str(text))
  }

  /** The mock's strings: FirstProperty "first", AndProperty "And", DelegateProperty "dummy", RequiredProperty "hello", the rest null. */
  lemma MockTexts(opts: XmlOptions, simpleOpts: XmlOptions)
    ensures var o := Mock(opts, simpleOpts);
      ComplexShaped(o) &&
      TextOf(o, 0) == Some("first") && TextOf(o, 1).None? && TextOf(o, 2) == Some("And") && TextOf(o, 3).None? &&
      TextOf(o, 4) == Some("dummy") && TextOf(o, 6).None? && TextOf(o, 7) == Some("hello") && TextOf(o, 8).None?
  {
  }

  /** A LengthProperty of "too long for ya" breaks the LengthValidator alone. */
  lemma LengthTooLongInvalid(opts: XmlOptions, simpleOpts: XmlOptions, codes: seq<string>, createInstance: string -> Record, matches: (string, string) -> bool)
    ensures var o, rules, host := MockWith(opts, simpleOpts, 6, Some("too long for ya")), ComplexRules(codes), TestHost(codes, createInstance, matches);
      Checkable(o, host) && !IsValid(o, host) && RulesBound(rules, o, "") && BrokenRules(rules, o, "", matches) == [rules[0]]
  {
    MockTexts(opts, simpleOpts);
    var o := MockWith(opts, simpleOpts, 6, Some("too long for ya"));
    assert |"too long for ya"| == 15;
    OnlyRuleBroken(o, codes, createInstance, matches, 0);
  }

  /** A LengthProperty of "hello" is within [1, 5]. */
  lemma LengthInRangeValid(opts: XmlOptions, simpleOpts: XmlOptions, codes: seq<string>, createInstance: string -> Record, matches: (string, string) -> bool)
    ensures var o, host := MockWith(opts, simpleOpts, 6, Some("hello")), TestHost(codes, createInstance, matches);
      Checkable(o, host) && IsValid(o, host)
  {
    MockTexts(opts, simpleOpts);
    var o := MockWith(opts, simpleOpts, 6, Some("hello"));
    assert |"hello"| == 5;
    NoRuleBroken(o, codes, createInstance, matches);
  }

  /** A table of ISO 3166-1 alpha-2 codes: every code has two letters. */
  predicate TwoLetterCodes(codes: seq<string>) {
    forall i :: 0 <= i < |codes| ==> |codes[i]| == 2
  }

  /** A CountryProperty that is no two-letter code breaks the CountryValidator alone. */
  lemma CountryUnknownInvalid(opts: XmlOptions, simpleOpts: XmlOptions, codes: seq<string>, createInstance: string -> Record, matches: (string, string) -> bool)
    requires TwoLetterCodes(codes)
    ensures var o, rules, host := MockWith(opts, simpleOpts, 3, Some("Don't think so")), ComplexRules(codes), TestHost(codes, createInstance, matches);
      Checkable(o, host) && !IsValid(o, host) && RulesBound(rules, o, "") && BrokenRules(rules, o, "", matches) == [rules[2]]
  {
    var o := MockWith(opts, simpleOpts, 3, Some("Don't think so"));
    assert |"Don't think so"| == 14;
    UnknownCountryViolation(opts, simpleOpts, codes, matches);
    OnlyRuleBroken(o, codes, createInstance, matches, 2);
  }

  lemma UnknownCountryViolation(opts: XmlOptions, simpleOpts: XmlOptions, codes: seq<string>, matches: (string, string) -> bool)
    requires "Don't think so" !in codes
    ensures forall j :: 0 <= j < 7 ==> (Violation(MockWith(opts, simpleOpts, 3, Some("Don't think so")), codes, matches, j) <==> j == 2)
  {
    MockTexts(opts, simpleOpts);
  }

  /** An empty CountryProperty passes. */
  lemma CountryEmptyValid(opts: XmlOptions, simpleOpts: XmlOptions, codes: seq<string>, createInstance: string -> Record, matches: (string, string) -> bool)
    ensures var o, host := MockWith(opts, simpleOpts, 3, Some("")), TestHost(codes, createInstance, matches);
      Checkable(o, host) && IsValid(o, host)
  {
    MockTexts(opts, simpleOpts);
    var o := MockWith(opts, simpleOpts, 3, Some(""));
    NoRuleBroken(o, codes, createInstance, matches);
  }

  /** A CountryProperty of "IT" passes when "IT" is a code. */
  lemma CountryKnownValid(opts: XmlOptions, simpleOpts: XmlOptions, codes: seq<string>, createInstance: string -> Record, matches: (string, string) -> bool)
    requires "IT" in codes
    ensures var o, host := MockWith(opts, simpleOpts, 3, Some("IT")), TestHost(codes, createInstance, matches);
      Checkable(o, host) && IsValid(o, host)
  {
    MockTexts(opts, simpleOpts);
    var o := MockWith(opts, simpleOpts, 3, Some("IT"));
    NoRuleBroken(o, codes, createInstance, matches);
  }

  /** A DelegateProperty other than "dummy" breaks the DelegateValidator alone. */
  lemma DelegateChangedInvalid(opts: XmlOptions, simpleOpts: XmlOptions, codes: seq<string>, createInstance: string -> Record, matches: (string, string) -> bool)
    ensures var o, rules, host := MockWith(opts, simpleOpts, 4, Some("Don't think so")), ComplexRules(codes), TestHost(codes, createInstance, matches);
      Checkable(o, host) && !IsValid(o, host) && RulesBound(rules, o, "") && BrokenRules(rules, o, "", matches) == [rules[3]]
  {
    MockTexts(opts, simpleOpts);
    var o := MockWith(opts, simpleOpts, 4, Some("Don't think so"));
    OnlyRuleBroken(o, codes, createInstance, matches, 3);
  }

  /** A RegexProperty the pattern "dummy" does not match breaks the RegexValidator alone. */
  lemma RegexMismatchInvalid(opts: XmlOptions, simpleOpts: XmlOptions, codes: seq<string>, createInstance: string -> Record, matches: (string, string) -> bool)
    requires !matches("Don't think so", "dummy")
    ensures var o, rules, host := MockWith(opts, simpleOpts, 8, Some("Don't think so")), ComplexRules(codes), TestHost(codes, createInstance, matches);
      Checkable(o, host) && !IsValid(o, host) && RulesBound(rules, o, "") && BrokenRules(rules, o, "", matches) == [rules[4]]
  {
    MockTexts(opts, simpleOpts);
    var o := MockWith(opts, simpleOpts, 8, Some("Don't think so"));
    OnlyRuleBroken(o, codes, createInstance, matches, 4);
  }

  /** A RegexProperty the pattern matches passes. */
  lemma RegexMatchValid(opts: XmlOptions, simpleOpts: XmlOptions, codes: seq<string>, createInstance: string -> Record, matches: (string, string) -> bool)
    requires matches("dummy", "dummy")
    ensures var o, host := MockWith(opts, simpleOpts, 8, Some("dummy")), TestHost(codes, createInstance, matches);
      Checkable(o, host) && IsValid(o, host)
  {
    MockTexts(opts, simpleOpts);
    var o := MockWith(opts, simpleOpts, 8, Some("dummy"));
    NoRuleBroken(o, codes, createInstance, matches);
  }

  /** A null AndProperty breaks the AndCompositeValidator alone. */
  lemma AndNullInvalid(opts: XmlOptions, simpleOpts: XmlOptions, codes: seq<string>, createInstance: string -> Record, matches: (string, string) -> bool)
    ensures var o, rules, host := MockWith(opts, simpleOpts, 2, None), ComplexRules(codes), TestHost(codes, createInstance, matches);
      Checkable(o, host) && !IsValid(o, host) && RulesBound(rules, o, "") && BrokenRules(rules, o, "", matches) == [rules[6]]
  {
    MockTexts(opts, simpleOpts);
    var o := MockWith(opts, simpleOpts, 2, None);
    OnlyRuleBroken(o, codes, createInstance, matches, 6);
  }

  /** With FirstProperty and SecondProperty both null the XorRequiredValidator alone is broken. */
  lemma XorNeitherInvalid(opts: XmlOptions, simpleOpts: XmlOptions, codes: seq<string>, createInstance: string -> Record, matches: (string, string) -> bool)
    ensures var o, rules, host := SetField(MockWith(opts, simpleOpts, 0, None), 1, Str(None)), ComplexRules(codes), TestHost(codes, createInstance, matches);
      Checkable(o, host) && !IsValid(o, host) && RulesBound(rules, o, "") && BrokenRules(rules, o, "", matches) == [rules[5]]
  {
    MockTexts(opts, simpleOpts);
    var o := SetField(MockWith(opts, simpleOpts, 0, None), 1, Str(None));
    assert ComplexShaped(o);
    OnlyRuleBroken(o, codes, createInstance, matches, 5);
  }

  /** Setting SecondProperty alone then satisfies the XorRequiredValidator. */
  lemma XorSecondOnlyValid(opts: XmlOptions, simpleOpts: XmlOptions, codes: seq<string>, createInstance: string -> Record, matches: (string, string) -> bool)
    ensures var o, host := SetField(MockWith(opts, simpleOpts, 0, None), 1, Str(Some("whatever"))), TestHost(codes, createInstance, matches);
      Checkable(o, host) && IsValid(o, host)
  {
    MockTexts(opts, simpleOpts);
    var o := SetField(MockWith(opts, simpleOpts, 0, None), 1, Str(Some("whatever")));
    assert ComplexShaped(o);
    NoRuleBroken(o, codes, createInstance, matches);
  }

  // ----- queries by property name -----

  /** The PropertyName of each of ComplexObject's rules; the XorRequiredValidator's lists its two properties. */
  const RuleNames: seq<string> := ["LengthProperty", "RequiredProperty", "CountryProperty", "DelegateProperty",
    "RegexProperty", "[FirstProperty, SecondProperty]", "AndProperty"]

  lemma ComplexRuleNames(codes: seq<string>)
    ensures forall j :: 0 <= j < 7 ==> PropertyName(ComplexRules(codes)[j]) == Some(RuleNames[j])
  {
    XorRuleName(codes);
  }

  /** The XorRequiredValidator's PropertyName is its two property names, bracketed and comma-separated. */
  lemma XorRuleName(codes: seq<string>)
    ensures PropertyName(ComplexRules(codes)[5]) == Some("[FirstProperty, SecondProperty]")
  {
    assert ComplexRules(codes)[5] == XorRequiredValidator(["FirstProperty", "SecondProperty"], Some("This is a fail"));
    FirstSecondName(Some("This is a fail"));
  }

  lemma FirstSecondName(description: Option<string>)
    ensures PropertyName(XorRequiredValidator(["FirstProperty", "SecondProperty"], description))
      == Some("[FirstProperty, SecondProperty]")
  {
    PropertyNameOfPair(XorRequiredValidator(["FirstProperty", "SecondProperty"], description), "FirstProperty", "SecondProperty");
    FirstSecondText();
  }

  lemma FirstSecondText()
    ensures "[" + "FirstProperty" + ", " + "SecondProperty" + "]" == "[FirstProperty, SecondProperty]"
  {
    assert "[" + "FirstProperty" == "[FirstProperty";
    assert "[FirstProperty" + ", " == "[FirstProperty, ";
    assert "[FirstProperty, " + "SecondProperty" == "[FirstProperty, SecondProperty";
  }

  /** The rule names are distinct, none is blank, and none has whitespace around it. */
  lemma RuleNamesDistinct()
    ensures forall i, j :: 0 <= i < j < 7 ==> RuleNames[i] != RuleNames[j]
  {
    var lengths := [14, 16, 15, 16, 13, 31, 11];
    assert |RuleNames[0]| == 14 && |RuleNames[1]| == 16 && |RuleNames[2]| == 15 && |RuleNames[3]| == 16;
    assert |RuleNames[4]| == 13 && |RuleNames[5]| == 31 && |RuleNames[6]| == 11;
    forall i, j | 0 <= i < j < 7 ensures RuleNames[i] != RuleNames[j] {
      if i == 1 && j == 3 {
        assert RuleNames[i][0] == 'R' && RuleNames[j][0] == 'D';
      } else {
        assert lengths[i] != lengths[j];
      }
    }
  }

  lemma RuleNameClean(i: nat)
    requires i < 7
    ensures RuleNames[i] != "" && CleanString(Some(RuleNames[i])) == RuleNames[i]
  {
    match i
    case 0 => CleanName(RuleNames[0]);
    case 1 => CleanName(RuleNames[1]);
    case 2 => CleanName(RuleNames[2]);
    case 3 => CleanName(RuleNames[3]);
    case 4 => CleanName(RuleNames[4]);
    case 5 => CleanName(RuleNames[5]);
    case 6 => CleanName(RuleNames[6]);
  }

  /** A name that neither starts nor ends with white space is left as it is by CleanString. */
  lemma CleanName(s: string)
    requires s != [] && !IsWhiteSpace(s[0]) && !IsWhiteSpace(s[|s| - 1])
    ensures CleanString(Some(s)) == s
  {
    TrimUntouched(s);
  }

  /** Rule i is the only rule validated when its own name is asked for; the name needs no cleaning. */
  lemma RuleSelectedByName(codes: seq<string>, i: nat)
    requires i < 7
    ensures CleanString(Some(RuleNames[i])) == RuleNames[i]
    ensures forall j :: 0 <= j < 7 ==> (Applies(ComplexRules(codes)[j], RuleNames[i]) <==> j == i)
  {
    ComplexRuleNames(codes);
    RuleNamesDistinct();
    RuleNameClean(i);
  }

  /**
   * Asking for a rule's property by name when that rule is broken:
   * GetBrokenRules(name) returns it alone and the indexer this[name] is
   * not null.
   */
  lemma PropertyBroken(o: Record, codes: seq<string>, matches: (string, string) -> bool, i: nat)
    requires ComplexShaped(o) && i < 7 && Violation(o, codes, matches, i)
    ensures var rules, name := ComplexRules(codes), RuleNames[i];
      CleanString(Some(name)) == name && RulesBound(rules, o, name) &&
      BrokenRules(rules, o, name, matches) == [rules[i]] && ErrorFor(rules, o, Some(name), matches).Some?
  {
    var rules, name := ComplexRules(codes), RuleNames[i];
    ComplexVerdicts(o, codes, matches);
    RuleSelectedByName(codes, i);
    SingleBrokenRule(rules, o, name, matches, i);
    ErrorForNoneIff(rules, o, Some(name), matches);
    assert Listed(Some(name), rules[i]);
  }

  /** Asking for a rule's property by name when that rule passes: nothing is broken and the indexer is null. */
  lemma PropertyPasses(o: Record, codes: seq<string>, matches: (string, string) -> bool, i: nat)
    requires ComplexShaped(o) && i < 7 && !Violation(o, codes, matches, i)
    ensures var rules, name := ComplexRules(codes), RuleNames[i];
      CleanString(Some(name)) == name && RulesBound(rules, o, name) &&
      BrokenRules(rules, o, name, matches) == [] && ErrorFor(rules, o, Some(name), matches).None?
  {
    var rules, name := ComplexRules(codes), RuleNames[i];
    ComplexVerdicts(o, codes, matches);
    RuleSelectedByName(codes, i);
    NamedRulePasses(rules, o, name, matches, i);
  }

  /** A name no rule carries: GetBrokenRules returns nothing and the indexer is null. */
  lemma NonExistingProperty(o: Record, codes: seq<string>, matches: (string, string) -> bool)
    ensures var rules := ComplexRules(codes);
      CleanString(Some("non_existing_property")) == "non_existing_property" &&
      RulesBound(rules, o, "non_existing_property") && BrokenRules(rules, o, "non_existing_property", matches) == [] &&
      ErrorFor(rules, o, Some("non_existing_property"), matches).None?
  {
    var rules := ComplexRules(codes);
    ComplexRuleNames(codes);
    TrimUntouched("non_existing_property");
    UnknownPropertyHasNoBrokenRules(rules, o, "non_existing_property", matches);
    ErrorForNoneIff(rules, o, Some("non_existing_property"), matches);
  }
}
