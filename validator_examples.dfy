/**
 * The validators applied on their own to a SimpleObject, as the validator
 * unit tests do: each rule is bound to SimpleProperty (and, for the
 * exclusive-or rule, AnotherProperty) and the delegate's closure reads the
 * very object being validated.
 */
module ValidatorExamples {
  import opened Wrappers
  import opened Records
  import opened Validators
  import opened Fixtures

  const Name: Option<string> := Some("SimpleProperty")
  const Description: Option<string> := Some("Houston we have a problem.")

  /** Validate(o) returns true. */
  predicate Passes(v: Validator, o: Record, matches: (string, string) -> bool) {
    Bound(v, o) && Evaluate(v, o, o, matches).passed
  }

  /** Validate(o) returns false. */
  predicate Fails(v: Validator, o: Record, matches: (string, string) -> bool) {
    Bound(v, o) && !Evaluate(v, o, o, matches).passed
  }

  /** GetPropertyValue on a SimpleObject finds the two string properties. */
  lemma SimpleLookup(opts: XmlOptions, simple: Option<string>, another: Option<string>)
    ensures Lookup(SimpleObject(opts, simple, another), Name) == Some(Str(simple))
    ensures Lookup(SimpleObject(opts, simple, another), Some("AnotherProperty")) == Some(Str(another))
  {
    var fields := SimpleObject(opts, simple, another).fields;
    assert fields[0].prop.name == "AnotherProperty";
    assert fields[1].prop.name == "SimpleProperty";
    assert FindField(fields, "SimpleProperty") == Some(1);
    assert FindField(fields, "AnotherProperty") == Some(0);
  }

  /** LengthValidator(2, 5): null, "", "12", "123" and "12345" pass; "1" and "123456" fail. */
  lemma LengthExamples(opts: XmlOptions, matches: (string, string) -> bool)
    ensures var v := LengthValidator(Name, Description, 2, 5);
      PropertyName(v) == Name && v.description == Description &&
      Passes(v, SimpleObject(opts, None, None), matches) &&
      Passes(v, SimpleObject(opts, Some(""), None), matches) &&
      Passes(v, SimpleObject(opts, Some("12"), None), matches) &&
      Passes(v, SimpleObject(opts, Some("123"), None), matches) &&
      Passes(v, SimpleObject(opts, Some("12345"), None), matches) &&
      Fails(v, SimpleObject(opts, Some("1"), None), matches) &&
      Fails(v, SimpleObject(opts, Some("123456"), None), matches)
  {
    var v := LengthValidator(Name, Description, 2, 5);
    LengthAt(v, opts, None, matches);
    LengthAt(v, opts, Some(""), matches);
    LengthAt(v, opts, Some("12"), matches);
    LengthAt(v, opts, Some("123"), matches);
    LengthAt(v, opts, Some("12345"), matches);
    LengthAt(v, opts, Some("1"), matches);
    LengthAt(v, opts, Some("123456"), matches);
  }

  lemma LengthAt(v: Validator, opts: XmlOptions, s: Option<string>, matches: (string, string) -> bool)
    requires v == LengthValidator(Name, Description, 2, 5)
    ensures var o := SimpleObject(opts, s, None);
      Bound(v, o) && (Evaluate(v, o, o, matches).passed <==> LengthOk(s, 2, 5))
  {
    SimpleLookup(opts, s, None);
  }

  /** RequiredValidator: "hello" passes; "" fails, on every call. */
  lemma RequiredExamples(opts: XmlOptions, matches: (string, string) -> bool)
    ensures var v := RequiredValidator(Name, Description);
      PropertyName(v) == Name && v.description == Description &&
      Passes(v, SimpleObject(opts, Some("hello"), None), matches) &&
      Fails(v, SimpleObject(opts, Some(""), None), matches)
  {
    SimpleLookup(opts, Some("hello"), None);
    SimpleLookup(opts, Some(""), None);
  }

  /** DomainValidator {"ONE", "TWO"}: null, "", "ONE" and "TWO" pass; "THREE" fails. */
  lemma DomainExamples(opts: XmlOptions, matches: (string, string) -> bool)
    ensures var v := DomainValidator(Name, Description, Some(["ONE", "TWO"]));
      PropertyName(v) == Name && v.description == Description &&
      Passes(v, SimpleObject(opts, None, None), matches) &&
      Passes(v, SimpleObject(opts, Some(""), None), matches) &&
      Passes(v, SimpleObject(opts, Some("ONE"), None), matches) &&
      Passes(v, SimpleObject(opts, Some("TWO"), None), matches) &&
      Fails(v, SimpleObject(opts, Some("THREE"), None), matches)
  {
    var v := DomainValidator(Name, Description, Some(["ONE", "TWO"]));
    DomainOnSimple(v, opts, None, matches);
    DomainOnSimple(v, opts, Some(""), matches);
    DomainOnSimple(v, opts, Some("ONE"), matches);
    DomainOnSimple(v, opts, Some("TWO"), matches);
    DomainOnSimple(v, opts, Some("THREE"), matches);
    assert "THREE" !in ["ONE", "TWO"];
  }

  /** CountryValidator over a code table holding "IT" but not "XX": null, "" and "IT" pass; "XX" fails. */
  lemma CountryExamples(opts: XmlOptions, codes: seq<string>, matches: (string, string) -> bool)
    requires "IT" in codes && "XX" !in codes
    ensures var v := CountryValidator(Name, Description, codes);
      PropertyName(v) == Name && v.description == Description &&
      Passes(v, SimpleObject(opts, None, None), matches) &&
      Passes(v, SimpleObject(opts, Some(""), None), matches) &&
      Passes(v, SimpleObject(opts, Some("IT"), None), matches) &&
      Fails(v, SimpleObject(opts, Some("XX"), None), matches)
  {
    var v := CountryValidator(Name, Description, codes);
    DomainOnSimple(v, opts, None, matches);
    DomainOnSimple(v, opts, Some(""), matches);
    DomainOnSimple(v, opts, Some("IT"), matches);
    DomainOnSimple(v, opts, Some("XX"), matches);
  }

  /** A domain rule on SimpleProperty passes a SimpleObject exactly when the value is null, "" or in the domain. */
  lemma DomainOnSimple(v: Validator, opts: XmlOptions, s: Option<string>, matches: (string, string) -> bool)
    requires v.kind.Domain? && v.kind.domain.Some? && PropertyName(v) == Name
    ensures var o := SimpleObject(opts, s, None);
      Bound(v, o) && (Passes(v, o, matches) <==> IsNullOrEmpty(s) || s.value in v.kind.domain.value)
  {
    var o := SimpleObject(opts, s, None);
    SimpleLookup(opts, s, None);
    DomainSemantics(v, o, o, matches);
  }

  /** The test's closure: SimpleProperty == "hello". */
  predicate SimpleIsHello(o: Record) {
    Lookup(o, Name) == Some(Str(Some("hello")))
  }

  /** DelegateValidator with `o.SimpleProperty == "hello"`: "hello" passes, "bye" fails. */
  lemma DelegateExamples(opts: XmlOptions, matches: (string, string) -> bool)
    ensures var v := DelegateValidator(Name, Description, SimpleIsHello);
      PropertyName(v) == Name && v.description == Description &&
      Passes(v, SimpleObject(opts, Some("hello"), None), matches) &&
      Fails(v, SimpleObject(opts, Some("bye"), None), matches)
  {
    SimpleLookup(opts, Some("hello"), None);
    SimpleLookup(opts, Some("bye"), None);
  }

  const Digits: string := "^(0|[1-9][0-9]*)$"

  /** RegexValidator with a digits-only pattern: "1234567890" passes, "ABC1234567890" fails, given what Regex.Match answers. */
  lemma RegexExamples(opts: XmlOptions, matches: (string, string) -> bool)
    requires matches("1234567890", Digits) && !matches("ABC1234567890", Digits)
    ensures var v := RegexValidator(Name, Description, Some(Digits));
      PropertyName(v) == Name && v.description == Description &&
      Passes(v, SimpleObject(opts, Some("1234567890"), None), matches) &&
      Fails(v, SimpleObject(opts, Some("ABC1234567890"), None), matches)
  {
    SimpleLookup(opts, Some("1234567890"), None);
    SimpleLookup(opts, Some("ABC1234567890"), None);
  }

  /** AndCompositeValidator of Required and Length(5): "12345" passes; null, "123" and "123456" fail. */
  lemma AndCompositeExamples(opts: XmlOptions, matches: (string, string) -> bool)
    ensures var v := AndCompositeValidator(Name, [RequiredValidatorAnonymous(), LengthValidatorOf(None, 5)]);
      PropertyName(v) == Name &&
      Passes(v, SimpleObject(opts, Some("12345"), None), matches) &&
      Fails(v, SimpleObject(opts, None, None), matches) &&
      Fails(v, SimpleObject(opts, Some("123"), None), matches) &&
      Fails(v, SimpleObject(opts, Some("123456"), None), matches)
  {
    var v := AndCompositeValidator(Name, [RequiredValidatorAnonymous(), LengthValidatorOf(None, 5)]);
    var cs := v.kind.children;
    assert PropertyName(cs[0]) == Name && PropertyName(cs[1]) == Name;
    assert cs[0].kind == Required && cs[1].kind == Length(5, 5);
    AndCompositeAt(v, SimpleObject(opts, Some("12345"), None), matches);
    AndCompositeAt(v, SimpleObject(opts, None, None), matches);
    AndCompositeAt(v, SimpleObject(opts, Some("123"), None), matches);
    AndCompositeAt(v, SimpleObject(opts, Some("123456"), None), matches);
  }

  /** The composite of the example on one SimpleObject: its verdict is Required's and Length(5)'s together. */
  lemma AndCompositeAt(v: Validator, o: Record, matches: (string, string) -> bool)
    requires v.kind.AndComposite? && |v.kind.children| == 2
    requires o.typeName == "SimpleObject" && o.fields == SimpleObject(o.options, TextOfSimple(o), None).fields
    requires var cs := v.kind.children;
      PropertyName(cs[0]) == Name && PropertyName(cs[1]) == Name && cs[0].kind == Required && cs[1].kind == Length(5, 5)
    ensures Bound(v, o)
    ensures Evaluate(v, o, o, matches).passed <==> !IsNullOrEmpty(TextOfSimple(o)) && |TextOfSimple(o).value| == 5
  {
    SimpleLookup(o.options, TextOfSimple(o), None);
    assert o == SimpleObject(o.options, TextOfSimple(o), None);
    AndCompositeSemantics(v, o, o, matches);
  }

  /** The SimpleProperty of a SimpleObject-shaped record, or null. */
  function TextOfSimple(o: Record): Option<string> {
    if |o.fields| > 1 && o.fields[1].value.Str? then o.fields[1].value.text else None
  }

  /** XorRequiredValidator over SimpleProperty and AnotherProperty reports the bracketed pair as its name, whatever its description. */
  lemma XorName(description: Option<string>)
    ensures PropertyName(XorRequiredValidator(["SimpleProperty", "AnotherProperty"], description))
      == Some("[SimpleProperty, AnotherProperty]")
  {
    PropertyNameOfPair(XorRequiredValidator(["SimpleProperty", "AnotherProperty"], description), "SimpleProperty", "AnotherProperty");
    SimpleAnotherText();
  }

  lemma SimpleAnotherText()
    ensures "[" + "SimpleProperty" + ", " + "AnotherProperty" + "]" == "[SimpleProperty, AnotherProperty]"
  {
    assert "[" + "SimpleProperty" == "[SimpleProperty";
    assert "[SimpleProperty" + ", " == "[SimpleProperty, ";
    assert "[SimpleProperty, " + "AnotherProperty" == "[SimpleProperty, AnotherProperty";
  }

  /** The same rule passes with exactly one of the two set ("" is unset). */
  lemma XorValidExamples(opts: XmlOptions, matches: (string, string) -> bool)
    ensures var v := XorRequiredValidatorDefault(["SimpleProperty", "AnotherProperty"]);
      Passes(v, SimpleObject(opts, None, Some("12345")), matches) &&
      Passes(v, SimpleObject(opts, Some(""), Some("12345")), matches) &&
      Passes(v, SimpleObject(opts, Some("12345"), None), matches) &&
      Passes(v, SimpleObject(opts, Some("12345"), Some("")), matches)
  {
    var v := XorRequiredValidatorDefault(["SimpleProperty", "AnotherProperty"]);
    XorAt(v, opts, None, Some("12345"), matches);
    XorAt(v, opts, Some(""), Some("12345"), matches);
    XorAt(v, opts, Some("12345"), None, matches);
    XorAt(v, opts, Some("12345"), Some(""), matches);
  }

  /** The same rule fails with neither set and with both set. */
  lemma XorInvalidExamples(opts: XmlOptions, matches: (string, string) -> bool)
    ensures var v := XorRequiredValidatorDefault(["SimpleProperty", "AnotherProperty"]);
      Fails(v, SimpleObject(opts, None, None), matches) &&
      Fails(v, SimpleObject(opts, Some(""), Some("")), matches) &&
      Fails(v, SimpleObject(opts, Some("12345"), Some("67890")), matches)
  {
    var v := XorRequiredValidatorDefault(["SimpleProperty", "AnotherProperty"]);
    XorAt(v, opts, None, None, matches);
    XorAt(v, opts, Some(""), Some(""), matches);
    XorAt(v, opts, Some("12345"), Some("67890"), matches);
  }

  /** The exclusive-or rule of the example on one SimpleObject. */
  lemma XorAt(v: Validator, opts: XmlOptions, simple: Option<string>, another: Option<string>, matches: (string, string) -> bool)
    requires v == XorRequiredValidatorDefault(["SimpleProperty", "AnotherProperty"])
    ensures Bound(v, SimpleObject(opts, simple, another))
    ensures Evaluate(v, SimpleObject(opts, simple, another), SimpleObject(opts, simple, another), matches).passed
      <==> IsNullOrEmpty(simple) != IsNullOrEmpty(another)
  {
    var o := SimpleObject(opts, simple, another);
    SimpleLookup(opts, simple, another);
    assert TextAt(o, Some("SimpleProperty")) == simple;
    XorOfTwo(v, o, o, matches, "SimpleProperty", "AnotherProperty");
  }
}
