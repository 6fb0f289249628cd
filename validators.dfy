/**
 * Validation rules. A rule is a value: the property it belongs to, its
 * description and its kind. Validation is a pure function of the rule, the
 * validated record and the state the rule's delegate observes; the two
 * rules whose Description the source mutates during Validate
 * (AndCompositeValidator, ListOfStringLengthValidator) are also written as
 * classes in module StatefulValidators and proved to agree with `Evaluate`.
 */
module Validators {
  import opened Wrappers
  import opened Text
  import opened Records

  /** What a concrete validator class checks. */
  datatype Kind =
    | Length(min: int, max: int)
    | ListOfStringLength(itemMin: int, itemMax: int)
    | Required
    | Domain(domain: Option<seq<string>>)
    | Regex(pattern: Option<string>)
    | Delegate(rule: Record -> bool)
    | XorRequired
    | AndComposite(children: seq<Validator>)

  /**
   * Validator: the backing field of PropertyName (`assignedName`), the
   * Properties array of multi-property rules, the Description and the kind.
   */
  datatype Validator = Validator(
    assignedName: Option<string>,
    properties: Option<seq<string>>,
    description: Option<string>,
    kind: Kind)

  /** The result of Validate together with the Description read right after it. */
  datatype Outcome = Outcome(passed: bool, description: Option<string>)

  // ----- PropertyName and GetHashCode -----

  /** Properties.Aggregate(string.Empty, (current, prop) => current + (prop + ", ")). */
  function Aggregate(ps: seq<string>): string
  {
    if ps == [] then "" else Aggregate(ps[..|ps| - 1]) + (ps[|ps| - 1] + ", ")
  }

  /** The names joined with ", " between them. */
  function JoinComma(ps: seq<string>): string
  {
    if ps == [] then "" else if |ps| == 1 then ps[0] else JoinComma(ps[..|ps| - 1]) + ", " + ps[|ps| - 1]
  }

  const Separators: set<char> := {' ', ','}

  /** The PropertyName getter. */
  function PropertyName(v: Validator): Option<string>
  {
    match v.properties
    case None => v.assignedName
    case Some(ps) => Some("[" + TrimEndOf(Aggregate(ps), Separators) + "]")
  }

  /** The internal PropertyName setter: it writes the backing field only. */
  function SetPropertyName(v: Validator, name: Option<string>): (r: Validator)
    ensures r.assignedName == name
    ensures r.properties == v.properties && r.description == v.description && r.kind == v.kind
  {
    v.(assignedName := name)
  }

  lemma {:induction false} AggregateIsJoinPlusSeparator(ps: seq<string>)
    requires ps != []
    ensures Aggregate(ps) == JoinComma(ps) + ", "
  {
    if |ps| > 1 {
      AggregateIsJoinPlusSeparator(ps[..|ps| - 1]);
    } else {
      assert ps[..0] == [];
    }
  }

  lemma TrimEndOfSeparatorSuffix(x: string)
    requires x != [] && x[|x| - 1] !in Separators
    ensures TrimEndOf(x + ", ", Separators) == x
  {
    var s := x + ", ";
    var r := TrimEndOf(s, Separators);
    assert s[|x|] == ',' && s[|x| + 1] == ' ';
    assert s[|x| - 1] !in Separators;
    assert |r| >= |x|;
    assert r != [] ==> r[|r| - 1] == s[|r| - 1];
    assert |r| <= |x|;
    assert r == s[..|x|] == x;
  }

  /**
   * For a multi-property rule PropertyName is "[" + names joined by ", " + "]",
   * provided the last name does not itself end in ' ' or ','; an empty
   * array gives "[]".
   */
  lemma PropertyNameOfProperties(v: Validator)
    requires v.properties.Some?
    requires v.properties.value == [] || (var last := v.properties.value[|v.properties.value| - 1];
      last != [] && last[|last| - 1] !in Separators)
    ensures PropertyName(v) == Some("[" + JoinComma(v.properties.value) + "]")
  {
    var ps := v.properties.value;
    if ps != [] {
      AggregateIsJoinPlusSeparator(ps);
      var x := JoinComma(ps);
      if |ps| > 1 {
        assert x == JoinComma(ps[..|ps| - 1]) + ", " + ps[|ps| - 1];
      }
      assert x != [] && x[|x| - 1] == ps[|ps| - 1][|ps[|ps| - 1]| - 1];
      TrimEndOfSeparatorSuffix(x);
    }
  }

  /** Two properties a and b give the name "[a, b]". */
  lemma PropertyNameOfPair(v: Validator, a: string, b: string)
    requires v.properties == Some([a, b]) && b != [] && b[|b| - 1] !in Separators
    ensures PropertyName(v) == Some("[" + a + ", " + b + "]")
  {
    PropertyNameOfProperties(v);
    assert [a, b][..1] == [a];
    var j := JoinComma([a, b]);
    assert j == a + ", " + b;
    calc {
      "[" + j + "]";
      "[" + (a + ", " + b) + "]";
      { assert "[" + (a + ", " + b) == "[" + a + ", " + b; }
      "[" + a + ", " + b + "]";
    }
  }

  /** Once Properties is set, assigning PropertyName has no visible effect. */
  lemma SetPropertyNameHiddenByProperties(v: Validator, name: Option<string>)
    requires v.properties.Some?
    ensures PropertyName(SetPropertyName(v, name)) == PropertyName(v)
  {
  }

  /** Without Properties, PropertyName reads back what was assigned. */
  lemma SetPropertyNameReadsBack(v: Validator, name: Option<string>)
    requires v.properties.None?
    ensures PropertyName(SetPropertyName(v, name)) == name
  {
  }

  /**
   * GetHashCode() hashes ToString(), which returns the Description, with
   * the string hash `stringHash`; a null Description makes it throw.
   */
  function HashCode(v: Validator, stringHash: string -> int): (r: Result<int, Failure>)
    ensures r.Err? <==> v.description.None?
    ensures r.Ok? ==> r.value == stringHash(v.description.value)
  {
    match v.description
    case None => Err(NullReference)
    case Some(d) => Ok(stringHash(d))
  }

  // ----- construction: the public constructors and their defaults -----

  function LengthValidator(name: Option<string>, description: Option<string>, min: int, max: int): (v: Validator)
    ensures PropertyName(v) == name && v.description == description && v.kind == Length(min, max)
  {
    Validator(name, None, description, Length(min, max))
  }

  /** LengthValidator(propertyName, length): description "Length must be {length}.". */
  function LengthValidatorOf(name: Option<string>, length: int): (v: Validator)
    ensures PropertyName(v) == name && v.kind == Length(length, length)
    ensures v.description == Some("Length must be " + IntToString(length) + ".")
  {
    LengthValidator(name, Some("Length must be " + IntToString(length) + "."), length, length)
  }

  /** LengthValidator(propertyName, min, max): description "Length must be between {min} and {max}.". */
  function LengthValidatorBetween(name: Option<string>, min: int, max: int): (v: Validator)
    ensures PropertyName(v) == name && v.kind == Length(min, max)
    ensures v.description == Some("Length must be between " + IntToString(min) + " and " + IntToString(max) + ".")
  {
    LengthValidator(name, Some("Length must be between " + IntToString(min) + " and " + IntToString(max) + "."), min, max)
  }

  /** ListOfStringLengthValidator(propertyName, length): its default description has no final period. */
  function ListOfStringLengthValidatorOf(name: Option<string>, length: int): (v: Validator)
    ensures PropertyName(v) == name && v.kind == ListOfStringLength(length, length)
    ensures v.description == Some("Length must be " + IntToString(length))
  {
    Validator(name, None, Some("Length must be " + IntToString(length)), ListOfStringLength(length, length))
  }

  function ListOfStringLengthValidatorBetween(name: Option<string>, min: int, max: int): (v: Validator)
    ensures PropertyName(v) == name && v.kind == ListOfStringLength(min, max)
    ensures v.description == Some("Length must be between " + IntToString(min) + " and " + IntToString(max))
  {
    Validator(name, None, Some("Length must be between " + IntToString(min) + " and " + IntToString(max)), ListOfStringLength(min, max))
  }

  /** RequiredValidator(): no property name, description "Required.". */
  function RequiredValidatorAnonymous(): (v: Validator)
    ensures PropertyName(v).None? && v.description == Some("Required.") && v.kind == Required
  {
    Validator(None, None, Some("Required."), Required)
  }

  /** RequiredValidator(propertyName, description). */
  function RequiredValidator(name: Option<string>, description: Option<string>): (v: Validator)
    ensures PropertyName(v) == name && v.description == description && v.kind == Required
  {
    Validator(name, None, description, Required)
  }

  /** RequiredValidator(propertyName): description "Required.". */
  function RequiredValidatorDefault(name: Option<string>): (v: Validator)
    ensures PropertyName(v) == name && v.description == Some("Required.") && v.kind == Required
  {
    RequiredValidator(name, Some("Required."))
  }

  /** DomainValidator(propertyName, description, domain); the two-argument form leaves Domain null. */
  function DomainValidator(name: Option<string>, description: Option<string>, domain: Option<seq<string>>): (v: Validator)
    ensures PropertyName(v) == name && v.description == description && v.kind == Domain(domain)
  {
    Validator(name, None, description, Domain(domain))
  }

  /** CountryValidator(propertyName, description): a domain rule over the two-letter codes. */
  function CountryValidator(name: Option<string>, description: Option<string>, twoLetterCodes: seq<string>): (v: Validator)
    ensures PropertyName(v) == name && v.description == description && v.kind == Domain(Some(twoLetterCodes))
  {
    DomainValidator(name, description, Some(twoLetterCodes))
  }

  const CountryDescription: string := "Must be a ISO 3166-1 alpha 2 code ([IT], [UK], [...])"

  /** CountryValidator(propertyName): the same rule with its default description. */
  function CountryValidatorDefault(name: Option<string>, twoLetterCodes: seq<string>): (v: Validator)
    ensures PropertyName(v) == name && v.description == Some(CountryDescription) && v.kind == Domain(Some(twoLetterCodes))
  {
    CountryValidator(name, Some(CountryDescription), twoLetterCodes)
  }

  /** RegexValidator(propertyName, description, regex). */
  function RegexValidator(name: Option<string>, description: Option<string>, pattern: Option<string>): (v: Validator)
    ensures PropertyName(v) == name && v.description == description && v.kind == Regex(pattern)
  {
    Validator(name, None, description, Regex(pattern))
  }

  const RegexDescription: string := "Unrecognized format."

  /** RegexValidator(propertyName, regex): description "Unrecognized format.". */
  function RegexValidatorDefault(name: Option<string>, pattern: Option<string>): (v: Validator)
    ensures PropertyName(v) == name && v.description == Some(RegexDescription) && v.kind == Regex(pattern)
  {
    RegexValidator(name, Some(RegexDescription), pattern)
  }

  /** DelegateValidator(propertyName, description, rule); the two-argument form has no property name. */
  function DelegateValidator(name: Option<string>, description: Option<string>, rule: Record -> bool): (v: Validator)
    ensures PropertyName(v) == name && v.description == description && v.kind == Delegate(rule)
  {
    Validator(name, None, description, Delegate(rule))
  }

  /** XorRequiredValidator(properties, description). */
  function XorRequiredValidator(properties: seq<string>, description: Option<string>): (v: Validator)
    ensures v.properties == Some(properties) && v.description == description && v.kind == XorRequired
  {
    Validator(None, Some(properties), description, XorRequired)
  }

  /** XorRequiredValidator(properties): description "Required.". */
  function XorRequiredValidatorDefault(properties: seq<string>): (v: Validator)
    ensures v.properties == Some(properties) && v.description == Some("Required.") && v.kind == XorRequired
  {
    XorRequiredValidator(properties, Some("Required."))
  }

  /**
   * AndCompositeValidator(propertyName, validators): no description until
   * the first Validate, and every child's PropertyName assigned the
   * composite's name.
   */
  function AndCompositeValidator(name: Option<string>, children: seq<Validator>): (v: Validator)
    ensures PropertyName(v) == name && v.description.None?
    ensures v.kind.AndComposite? && |v.kind.children| == |children|
    ensures forall i :: 0 <= i < |children| ==>
      v.kind.children[i] == SetPropertyName(children[i], name)
  {
    Validator(name, None, None, AndComposite(seq(|children|, i requires 0 <= i < |children| => SetPropertyName(children[i], name))))
  }

  /** Children without a Properties array report the composite's name as their own. */
  lemma AndCompositeRenamesChildren(name: Option<string>, children: seq<Validator>, i: nat)
    requires i < |children| && children[i].properties.None?
    ensures PropertyName(AndCompositeValidator(name, children).kind.children[i]) == name
  {
  }

  // ----- what Validate reads: GetPropertyValue(businessObject, PropertyName) -----

  predicate HasText(r: Record, name: Option<string>) {
    Lookup(r, name).Some? && Lookup(r, name).value.Str?
  }

  function TextAt(r: Record, name: Option<string>): Option<string>
    requires HasText(r, name)
  {
    Lookup(r, name).value.text
  }

  predicate HasStrings(r: Record, name: Option<string>) {
    Lookup(r, name).Some? && Lookup(r, name).value.StringList?
  }

  /**
   * Validate returns instead of throwing: the property it reads exists and
   * has the type the rule casts it to, and a null Domain or Regex is only
   * reached on an empty value.
   */
  predicate Bound(v: Validator, r: Record)
    decreases v
  {
    match v.kind
    case AndComposite(cs) => forall i :: 0 <= i < |cs| ==> Bound(cs[i], r)
    case _ => LeafBound(v, r)
  }

  /** Bound for a rule that is not a composite. */
  predicate LeafBound(v: Validator, r: Record) {
    match v.kind
    case Length(_, _) => HasText(r, PropertyName(v))
    case ListOfStringLength(_, _) => HasStrings(r, PropertyName(v))
    case Required => Lookup(r, PropertyName(v)).Some?
    case Domain(d) => HasText(r, PropertyName(v)) && (d.Some? || IsNullOrEmpty(TextAt(r, PropertyName(v))))
    case Regex(p) => HasText(r, PropertyName(v)) && (p.Some? || IsNullOrEmpty(TextAt(r, PropertyName(v))))
    case Delegate(_) => true
    case XorRequired => v.properties.Some? && forall p :: p in v.properties.value ==> HasText(r, Some(p))
    case AndComposite(_) => false
  }

  // ----- the checks -----

  /** LengthValidator: empty or null passes, otherwise the length lies in [min, max]. */
  predicate LengthOk(s: Option<string>, min: int, max: int) {
    IsNullOrEmpty(s) || (min <= |s.value| && |s.value| <= max)
  }

  /** The index of the first list item whose length is out of range. */
  function FirstOffender(items: seq<Option<string>>, min: int, max: int): (r: Option<nat>)
    ensures r.Some? ==> r.value < |items| && !LengthOk(items[r.value], min, max)
    ensures r.Some? ==> forall j :: 0 <= j < r.value ==> LengthOk(items[j], min, max)
    ensures r.None? <==> forall j :: 0 <= j < |items| ==> LengthOk(items[j], min, max)
  {
    if items == [] then None
    else if !LengthOk(items[0], min, max) then Some(0)
    else match FirstOffender(items[1..], min, max)
      case None => (assert forall j :: 1 <= j < |items| ==> items[j] == items[1..][j - 1]; None)
      case Some(i) => Some(i + 1)
  }

  /** ListOfStringLengthValidator's Description once item `i` has been found out of range. */
  function OffenderDescription(description: Option<string>, i: nat): string {
    OrEmpty(description) + " (#" + IntToString(i) + ")."
  }

  /** RequiredValidator: a non-empty string, a non-empty business object, or any other non-null value. */
  predicate Present(v: Value) {
    match v
    case Str(t) => !IsNullOrEmpty(t)
    case Nested(c) => !IsEmpty(c)
    case Dec(n) => n.Some?
    case Date(t) => t.Some?
    case RecordList(_, _, _) => true
    case StringList(_, _) => true
  }

  /** The number of the named properties that hold neither null nor "". */
  function CountSet(r: Record, ps: seq<string>): (n: nat)
    requires forall p :: p in ps ==> HasText(r, Some(p))
    ensures n <= |ps|
  {
    if ps == [] then 0
    else (if IsNullOrEmpty(TextAt(r, Some(ps[0]))) then 0 else 1) + CountSet(r, ps[1..])
  }

  /**
   * The AndCompositeValidator's verdict from its children's outcomes: all
   * must pass; the Description is null when they do and otherwise the
   * concatenation of the failing children's descriptions (null read as "").
   */
  function Combine(outs: seq<Outcome>): (o: Outcome)
    ensures o.passed <==> forall i :: 0 <= i < |outs| ==> outs[i].passed
    ensures o.passed <==> o.description.None?
  {
    if forall i :: 0 <= i < |outs| ==> outs[i].passed then Outcome(true, None)
    else Outcome(false, Some(FailingText(outs)))
  }

  /** The descriptions of the failing outcomes, concatenated in order. */
  function FailingText(outs: seq<Outcome>): string
  {
    if outs == [] then ""
    else (if outs[0].passed then "" else OrEmpty(outs[0].description)) + FailingText(outs[1..])
  }

  /**
   * Validate(businessObject) and the Description read right after it.
   * `target` is the object passed to Validate; `env` is the state a
   * delegate's closure observes (the object that created the rule);
   * `matches(input, pattern)` stands for Regex.Match(input, pattern).Success.
   */
  function Evaluate(v: Validator, target: Record, env: Record, matches: (string, string) -> bool): (o: Outcome)
    requires Bound(v, target)
    ensures v.kind.AndComposite? ==> (o.passed <==> o.description.None?)
    ensures !v.kind.AndComposite? && !v.kind.ListOfStringLength? ==> o.description == v.description
    decreases v
  {
    match v.kind
    case AndComposite(cs) =>
      Combine(seq(|cs|, i requires 0 <= i < |cs| => Evaluate(cs[i], target, env, matches)))
    case _ => EvaluateLeaf(v, target, env, matches)
  }

  /**
   * Validate of every rule kind but the composite. Only the list rule
   * rewrites its Description, and only when it fails.
   */
  function EvaluateLeaf(v: Validator, target: Record, env: Record, matches: (string, string) -> bool): (o: Outcome)
    requires LeafBound(v, target)
    ensures o.passed || !v.kind.ListOfStringLength? ==> o.description == v.description
    ensures v.kind.ListOfStringLength? && !o.passed ==> o.description.Some?
  {
    var name := PropertyName(v);
    match v.kind
    case Length(min, max) => Outcome(LengthOk(TextAt(target, name), min, max), v.description)
    case ListOfStringLength(min, max) =>
      (match FirstOffender(Lookup(target, name).value.strings, min, max)
       case None => Outcome(true, v.description)
       case Some(i) => Outcome(false, Some(OffenderDescription(v.description, i))))
    case Required => Outcome(Present(Lookup(target, name).value), v.description)
    case Domain(d) =>
      var s := TextAt(target, name);
      Outcome(IsNullOrEmpty(s) || s.value in d.value, v.description)
    case Regex(p) =>
      var s := TextAt(target, name);
      Outcome(IsNullOrEmpty(s) || matches(s.value, p.value), v.description)
    case Delegate(rule) => Outcome(rule(env), v.description)
    case XorRequired => Outcome(CountSet(target, v.properties.value) == 1, v.description)
  }

  // ----- what each rule promises -----

  /** LengthValidator passes exactly on null, "", or a length within [min, max]. */
  lemma LengthSemantics(v: Validator, r: Record, env: Record, matches: (string, string) -> bool)
    requires v.kind.Length? && Bound(v, r)
    ensures var s := TextAt(r, PropertyName(v));
      Evaluate(v, r, env, matches).passed <==> s.None? || s.value == "" || (v.kind.min <= |s.value| <= v.kind.max)
    ensures Evaluate(v, r, env, matches).description == v.description
  {
  }

  /**
   * ListOfStringLengthValidator passes exactly when every item is null,
   * empty or within range; on failure the description names the first
   * offending index.
   */
  lemma ListOfStringLengthSemantics(v: Validator, r: Record, env: Record, matches: (string, string) -> bool)
    requires v.kind.ListOfStringLength? && Bound(v, r)
    ensures var items := Lookup(r, PropertyName(v)).value.strings;
      Evaluate(v, r, env, matches).passed <==> forall j :: 0 <= j < |items| ==> LengthOk(items[j], v.kind.itemMin, v.kind.itemMax)
    ensures var items := Lookup(r, PropertyName(v)).value.strings;
      !Evaluate(v, r, env, matches).passed ==> exists i ::
        0 <= i < |items| && !LengthOk(items[i], v.kind.itemMin, v.kind.itemMax) &&
        (forall j :: 0 <= j < i ==> LengthOk(items[j], v.kind.itemMin, v.kind.itemMax)) &&
        Evaluate(v, r, env, matches).description == Some(OffenderDescription(v.description, i))
  {
    var items := Lookup(r, PropertyName(v)).value.strings;
    var o := FirstOffender(items, v.kind.itemMin, v.kind.itemMax);
    if o.Some? {
      assert Evaluate(v, r, env, matches).description == Some(OffenderDescription(v.description, o.value));
    }
  }

  /** RequiredValidator on a string property fails exactly on null and "". */
  lemma RequiredOnString(v: Validator, r: Record, env: Record, matches: (string, string) -> bool)
    requires v.kind.Required? && Bound(v, r) && HasText(r, PropertyName(v))
    ensures Evaluate(v, r, env, matches).passed <==> !IsNullOrEmpty(TextAt(r, PropertyName(v)))
  {
  }

  /** RequiredValidator on a business-object property fails exactly when that object is empty. */
  lemma RequiredOnNested(v: Validator, r: Record, env: Record, matches: (string, string) -> bool)
    requires v.kind.Required? && Bound(v, r) && Lookup(r, PropertyName(v)).value.Nested?
    ensures Evaluate(v, r, env, matches).passed <==> !IsEmpty(Lookup(r, PropertyName(v)).value.record)
  {
  }

  /** DomainValidator (and CountryValidator) passes exactly on null, "", or a member of the domain. */
  lemma DomainSemantics(v: Validator, r: Record, env: Record, matches: (string, string) -> bool)
    requires v.kind.Domain? && Bound(v, r)
    ensures var s := TextAt(r, PropertyName(v));
      Evaluate(v, r, env, matches).passed <==> IsNullOrEmpty(s) || s.value in v.kind.domain.value
  {
  }

  /** RegexValidator passes exactly on null, "", or a value the pattern matches. */
  lemma RegexSemantics(v: Validator, r: Record, env: Record, matches: (string, string) -> bool)
    requires v.kind.Regex? && Bound(v, r)
    ensures var s := TextAt(r, PropertyName(v));
      Evaluate(v, r, env, matches).passed <==> IsNullOrEmpty(s) || matches(s.value, v.kind.pattern.value)
  {
  }

  /** DelegateValidator ignores the validated object: only the delegate's view of its own state counts. */
  lemma DelegateIgnoresTarget(v: Validator, r1: Record, r2: Record, env: Record, matches: (string, string) -> bool)
    requires v.kind.Delegate?
    ensures Evaluate(v, r1, env, matches) == Evaluate(v, r2, env, matches)
    ensures Evaluate(v, r1, env, matches).passed == v.kind.rule(env)
  {
  }

  /**
   * XorRequiredValidator over two properties passes exactly when one of
   * them is set (neither null nor "") and the other is not: it is an
   * exclusive or, although its documentation says "at least one".
   */
  lemma XorOfTwo(v: Validator, r: Record, env: Record, matches: (string, string) -> bool, a: string, b: string)
    requires v.kind.XorRequired? && v.properties == Some([a, b]) && Bound(v, r)
    ensures var setA := !IsNullOrEmpty(TextAt(r, Some(a)));
      var setB := !IsNullOrEmpty(TextAt(r, Some(b)));
      Evaluate(v, r, env, matches).passed <==> (setA && !setB) || (!setA && setB)
  {
    assert [a, b][1..] == [b];
    assert [b][1..] == [];
    assert CountSet(r, [a, b]) == (if IsNullOrEmpty(TextAt(r, Some(a))) then 0 else 1) + CountSet(r, [b]);
    assert CountSet(r, [b]) == (if IsNullOrEmpty(TextAt(r, Some(b))) then 0 else 1) + CountSet(r, []);
  }

  /** The names of the listed properties that are set, with multiplicity. */
  function SetNames(r: Record, ps: seq<string>): (s: seq<string>)
    requires forall p :: p in ps ==> HasText(r, Some(p))
    ensures forall p :: p in s ==> p in ps && !IsNullOrEmpty(TextAt(r, Some(p)))
  {
    if ps == [] then []
    else (if IsNullOrEmpty(TextAt(r, Some(ps[0]))) then [] else [ps[0]]) + SetNames(r, ps[1..])
  }

  lemma {:induction false} CountSetIsSetNames(r: Record, ps: seq<string>)
    requires forall p :: p in ps ==> HasText(r, Some(p))
    ensures CountSet(r, ps) == |SetNames(r, ps)|
  {
    if ps != [] {
      CountSetIsSetNames(r, ps[1..]);
    }
  }

  /**
   * XorRequiredValidator passes exactly when exactly one listed property is
   * set: the set ones, counted with repetition, form a single name.
   */
  lemma XorExactlyOne(v: Validator, r: Record, env: Record, matches: (string, string) -> bool)
    requires v.kind.XorRequired? && Bound(v, r)
    ensures Evaluate(v, r, env, matches).passed <==> |SetNames(r, v.properties.value)| == 1
    ensures !Evaluate(v, r, env, matches).passed ==>
      SetNames(r, v.properties.value) == [] || |SetNames(r, v.properties.value)| >= 2
  {
    CountSetIsSetNames(r, v.properties.value);
  }

  lemma {:induction false} FailingTextOfPassing(outs: seq<Outcome>)
    requires forall i :: 0 <= i < |outs| ==> outs[i].passed
    ensures FailingText(outs) == ""
  {
    if outs != [] {
      FailingTextOfPassing(outs[1..]);
    }
  }

  /** FailingText of a sequence extended by one outcome: the left fold the source performs. */
  lemma {:induction false} FailingTextSnoc(outs: seq<Outcome>, o: Outcome)
    ensures FailingText(outs + [o]) == FailingText(outs) + (if o.passed then "" else OrEmpty(o.description))
  {
    if outs == [] {
      assert [o][1..] == [];
    } else {
      assert (outs + [o])[1..] == outs[1..] + [o];
      FailingTextSnoc(outs[1..], o);
    }
  }

  /**
   * AndCompositeValidator passes exactly when every child passes; its
   * description is then null, and otherwise the failing children's
   * descriptions in order.
   */
  lemma AndCompositeSemantics(v: Validator, r: Record, env: Record, matches: (string, string) -> bool)
    requires v.kind.AndComposite? && Bound(v, r)
    ensures var cs := v.kind.children;
      Evaluate(v, r, env, matches).passed <==> forall i :: 0 <= i < |cs| ==> Evaluate(cs[i], r, env, matches).passed
    ensures Evaluate(v, r, env, matches).passed ==> Evaluate(v, r, env, matches).description.None?
  {
    EvaluateComposite(v, r, env, matches);
  }

  /**
   * The Description after the first `i` children have been visited by the
   * composite's loop: reset to null, then `Description += child.Description`
   * for each failing child.
   */
  function FoldDescription(outs: seq<Outcome>, i: nat): Option<string>
    requires i <= |outs|
  {
    if i == 0 then None
    else
      var d := FoldDescription(outs, i - 1);
      if outs[i - 1].passed then d else Some(Plus(d, outs[i - 1].description))
  }

  lemma FoldDescriptionStep(outs: seq<Outcome>, i: nat)
    requires i < |outs|
    ensures FoldDescription(outs, i + 1) ==
      if outs[i].passed then FoldDescription(outs, i) else Some(Plus(FoldDescription(outs, i), outs[i].description))
  {
  }

  /** The loop's Description is null while every child so far passed, and otherwise their failing descriptions in order. */
  lemma {:induction false} FoldDescriptionIsFailingText(outs: seq<Outcome>, i: nat)
    requires i <= |outs|
    ensures FoldDescription(outs, i).None? <==> forall j :: 0 <= j < i ==> outs[j].passed
    ensures FoldDescription(outs, i).Some? ==> FoldDescription(outs, i).value == FailingText(outs[..i])
  {
    if i > 0 {
      FoldDescriptionIsFailingText(outs, i - 1);
      FailingTextSnoc(outs[..i - 1], outs[i - 1]);
      assert outs[..i] == outs[..i - 1] + [outs[i - 1]];
      if FoldDescription(outs, i - 1).None? {
        FailingTextOfPassing(outs[..i - 1]);
      }
    }
  }

  /** The source's loop computes Combine: the composite's verdict and Description. */
  lemma FoldIsCombine(outs: seq<Outcome>)
    ensures Combine(outs) == Outcome(FoldDescription(outs, |outs|).None?, FoldDescription(outs, |outs|))
  {
    FoldDescriptionIsFailingText(outs, |outs|);
    assert outs[..|outs|] == outs;
  }

  /** The outcomes of the given children, in order. */
  function Outcomes(cs: seq<Validator>, target: Record, env: Record, matches: (string, string) -> bool): (outs: seq<Outcome>)
    requires forall i :: 0 <= i < |cs| ==> Bound(cs[i], target)
    ensures |outs| == |cs|
    ensures forall i :: 0 <= i < |cs| ==> outs[i] == Evaluate(cs[i], target, env, matches)
  {
    seq(|cs|, i requires 0 <= i < |cs| => Evaluate(cs[i], target, env, matches))
  }

  /** A composite's outcome is its children's outcomes combined; its own name and description play no part. */
  lemma EvaluateComposite(v: Validator, target: Record, env: Record, matches: (string, string) -> bool)
    requires v.kind.AndComposite? && Bound(v, target)
    ensures Evaluate(v, target, env, matches) == Combine(Outcomes(v.kind.children, target, env, matches))
  {
    assert Outcomes(v.kind.children, target, env, matches) ==
      seq(|v.kind.children|, i requires 0 <= i < |v.kind.children| => Evaluate(v.kind.children[i], target, env, matches));
  }

  /** A composite with a single failing child reports that child's description. */
  lemma AndCompositeSingleFailure(v: Validator, r: Record, env: Record, matches: (string, string) -> bool, k: nat)
    requires v.kind.AndComposite? && Bound(v, r) && k < |v.kind.children|
    requires !Evaluate(v.kind.children[k], r, env, matches).passed
    requires forall i :: 0 <= i < |v.kind.children| && i != k ==> Evaluate(v.kind.children[i], r, env, matches).passed
    ensures Evaluate(v, r, env, matches) == Outcome(false, Some(OrEmpty(Evaluate(v.kind.children[k], r, env, matches).description)))
  {
    EvaluateComposite(v, r, env, matches);
    FailingTextSplit(Outcomes(v.kind.children, r, env, matches), k);
  }

  lemma {:induction false} FailingTextSplit(outs: seq<Outcome>, k: nat)
    requires k < |outs| && !outs[k].passed
    requires forall i :: 0 <= i < |outs| && i != k ==> outs[i].passed
    ensures FailingText(outs) == OrEmpty(outs[k].description)
  {
    if k == 0 {
      FailingTextOfPassing(outs[1..]);
    } else {
      FailingTextSplit(outs[1..], k - 1);
    }
  }
}
