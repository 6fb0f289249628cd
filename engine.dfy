/**
 * The validation engine of BusinessObjectBase: which rules are broken, the
 * per-property error text (the IDataErrorInfo indexer), the object's Error
 * with its children's errors folded in, IsValid and IsEmpty.
 */
module Engine {
  import opened Wrappers
  import opened Text
  import opened Records
  import opened Validators

  /**
   * What the engine reaches outside the modelled code: the CreateRules
   * override of each concrete type, object creation by type name
   * (Activator.CreateInstance) and the regular-expression engine.
   */
  datatype Host = Host(
    createRules: string -> seq<Validator>,
    createInstance: string -> Record,
    matches: (string, string) -> bool)

  /**
   * CleanString: null becomes "", then surrounding whitespace is trimmed.
   * The result is the piece of the text between its first and last
   * non-whitespace characters, and "" for blank text.
   */
  function CleanString(s: Option<string>): (r: string)
    ensures s.None? ==> r == ""
    ensures r == "" <==> Blank(OrEmpty(s))
  {
    var t := OrEmpty(s);
    TrimEmptyIffBlank(t);
    Trim(t)
  }

  /** CleanString keeps exactly the text between the first and last non-whitespace characters. */
  lemma CleanStringTrimmed(s: Option<string>)
    ensures TrimmedFrom(OrEmpty(s), CleanString(s))
  {
    TrimSlice(OrEmpty(s));
  }

  /** A rule is validated for `property` when it belongs to it, or when every rule is asked for (""). */
  predicate Applies(v: Validator, property: string) {
    PropertyName(v) == Some(property) || property == ""
  }

  /** Every rule that is validated for `property` can be validated without throwing. */
  predicate RulesBound(rules: seq<Validator>, r: Record, property: string) {
    forall i :: 0 <= i < |rules| && Applies(rules[i], property) ==> Bound(rules[i], r)
  }

  /** Validate(this) for a rule of the object itself: delegates observe the object. */
  predicate Broken(v: Validator, r: Record, matches: (string, string) -> bool)
    requires Bound(v, r)
  {
    !Evaluate(v, r, r, matches).passed
  }

  /** GetBrokenRules(property) over the already-cleaned property name: the failing applicable rules, in rule order. */
  function BrokenRules(rules: seq<Validator>, r: Record, property: string, matches: (string, string) -> bool): (b: seq<Validator>)
    requires RulesBound(rules, r, property)
    ensures |b| <= |rules|
    ensures forall k :: 0 <= k < |b| ==> Applies(b[k], property) && Bound(b[k], r) && Broken(b[k], r, matches)
  {
    if rules == [] then []
    else
      var n := |rules| - 1;
      BrokenRules(rules[..n], r, property, matches)
        + (if Applies(rules[n], property) && Broken(rules[n], r, matches) then [rules[n]] else [])
  }

  /**
   * A rule is reported broken exactly when it belongs to the rule list,
   * applies to the property and fails.
   */
  lemma {:induction false} BrokenRulesMembers(rules: seq<Validator>, r: Record, property: string, matches: (string, string) -> bool)
    requires RulesBound(rules, r, property)
    ensures forall v :: v in BrokenRules(rules, r, property, matches) ==> v in rules
    ensures forall i :: 0 <= i < |rules| && Applies(rules[i], property) && Broken(rules[i], r, matches) ==>
      rules[i] in BrokenRules(rules, r, property, matches)
  {
    if rules != [] {
      var n := |rules| - 1;
      BrokenRulesMembers(rules[..n], r, property, matches);
      forall i | 0 <= i < |rules| && Applies(rules[i], property) && Broken(rules[i], r, matches)
        ensures rules[i] in BrokenRules(rules, r, property, matches)
      {
        if i < n {
          assert rules[..n][i] == rules[i];
        }
      }
      forall v | v in BrokenRules(rules, r, property, matches) ensures v in rules {
        if v in BrokenRules(rules[..n], r, property, matches) {
          assert v in rules[..n];
        }
      }
    }
  }

  /** Nothing is broken exactly when every applicable rule passes. */
  lemma NoneBrokenIffAllPass(rules: seq<Validator>, r: Record, property: string, matches: (string, string) -> bool)
    requires RulesBound(rules, r, property)
    ensures BrokenRules(rules, r, property, matches) == [] <==>
      forall i :: 0 <= i < |rules| && Applies(rules[i], property) ==> !Broken(rules[i], r, matches)
  {
    BrokenRulesMembers(rules, r, property, matches);
  }

  /** When exactly one applicable rule fails, GetBrokenRules returns that rule alone. */
  lemma {:induction false} SingleBrokenRule(rules: seq<Validator>, r: Record, property: string, matches: (string, string) -> bool, i: nat)
    requires RulesBound(rules, r, property) && i < |rules| && Applies(rules[i], property)
    requires forall j :: 0 <= j < |rules| && Applies(rules[j], property) ==> (Broken(rules[j], r, matches) <==> j == i)
    ensures BrokenRules(rules, r, property, matches) == [rules[i]]
  {
    var n := |rules| - 1;
    BrokenRulesStep(rules, r, property, matches);
    if i == n {
      NoneBrokenBefore(rules, r, property, matches);
      assert BrokenRules(rules[..n], r, property, matches) == [];
    } else {
      OnlyBrokenBefore(rules, r, property, matches, i);
      SingleBrokenRule(rules[..n], r, property, matches, i);
      assert !Applies(rules[n], property) || !Broken(rules[n], r, matches);
    }
  }

  /** When only the last applicable rule fails, nothing before it is broken. */
  lemma NoneBrokenBefore(rules: seq<Validator>, r: Record, property: string, matches: (string, string) -> bool)
    requires rules != [] && RulesBound(rules, r, property)
    requires forall j :: 0 <= j < |rules| - 1 && Applies(rules[j], property) ==> !Broken(rules[j], r, matches)
    ensures RulesBound(rules[..|rules| - 1], r, property)
    ensures BrokenRules(rules[..|rules| - 1], r, property, matches) == []
  {
    var front := rules[..|rules| - 1];
    assert forall j :: 0 <= j < |front| ==> front[j] == rules[j];
    NoneBrokenIffAllPass(front, r, property, matches);
  }

  /** The one failing rule, when not the last, is also the one failing rule of the front part. */
  lemma OnlyBrokenBefore(rules: seq<Validator>, r: Record, property: string, matches: (string, string) -> bool, i: nat)
    requires RulesBound(rules, r, property) && i < |rules| - 1 && Applies(rules[i], property)
    requires forall j :: 0 <= j < |rules| && Applies(rules[j], property) ==> (Broken(rules[j], r, matches) <==> j == i)
    ensures var front := rules[..|rules| - 1];
      RulesBound(front, r, property) && i < |front| && Applies(front[i], property) &&
      forall j :: 0 <= j < |front| && Applies(front[j], property) ==> (Broken(front[j], r, matches) <==> j == i)
  {
    var front := rules[..|rules| - 1];
    assert forall j :: 0 <= j < |front| ==> front[j] == rules[j];
  }

  /** Asking for a name no rule carries validates nothing. */
  lemma {:induction false} UnknownPropertyHasNoBrokenRules(rules: seq<Validator>, r: Record, property: string, matches: (string, string) -> bool)
    requires property != ""
    requires forall i :: 0 <= i < |rules| ==> PropertyName(rules[i]) != Some(property)
    ensures RulesBound(rules, r, property)
    ensures BrokenRules(rules, r, property, matches) == []
  {
    if rules != [] {
      UnknownPropertyHasNoBrokenRules(rules[..|rules| - 1], r, property, matches);
    }
  }

  /**
   * GetBrokenRules is an in-order filter: the broken rules of a
   * concatenation are those of the first part followed by those of the
   * second, each rule appearing as often as it occurs.
   */
  lemma {:induction false} BrokenRulesConcat(a: seq<Validator>, b: seq<Validator>, r: Record, property: string, matches: (string, string) -> bool)
    requires RulesBound(a + b, r, property)
    ensures RulesBound(a, r, property) && RulesBound(b, r, property)
    ensures BrokenRules(a + b, r, property, matches) == BrokenRules(a, r, property, matches) + BrokenRules(b, r, property, matches)
    decreases |b|
  {
    RulesBoundParts(a, b, r, property);
    if b == [] {
      assert a + b == a;
    } else {
      var n := |b| - 1;
      var ab := a + b;
      assert ab[..|ab| - 1] == a + b[..n];
      assert ab[|ab| - 1] == b[n];
      BrokenRulesStep(ab, r, property, matches);
      BrokenRulesStep(b, r, property, matches);
      BrokenRulesConcat(a, b[..n], r, property, matches);
      SeqAssoc(BrokenRules(a, r, property, matches), BrokenRules(b[..n], r, property, matches),
        if Applies(b[n], property) && Broken(b[n], r, matches) then [b[n]] else []);
    }
  }

  /** One unfolding of GetBrokenRules' loop: the last rule is checked after all the others. */
  lemma BrokenRulesStep(rules: seq<Validator>, r: Record, property: string, matches: (string, string) -> bool)
    requires rules != [] && RulesBound(rules, r, property)
    ensures RulesBound(rules[..|rules| - 1], r, property)
    ensures var n := |rules| - 1;
      BrokenRules(rules, r, property, matches) == BrokenRules(rules[..n], r, property, matches)
        + (if Applies(rules[n], property) && Broken(rules[n], r, matches) then [rules[n]] else [])
  {
    RulesBoundPrefix(rules, |rules| - 1, r, property);
  }

  lemma SeqAssoc(x: seq<Validator>, y: seq<Validator>, z: seq<Validator>)
    ensures (x + y) + z == x + (y + z)
  {
  }

  lemma RulesBoundParts(a: seq<Validator>, b: seq<Validator>, r: Record, property: string)
    requires RulesBound(a + b, r, property)
    ensures RulesBound(a, r, property) && RulesBound(b, r, property)
  {
    assert forall i :: 0 <= i < |a| ==> (a + b)[i] == a[i];
    assert forall i :: 0 <= i < |b| ==> (a + b)[|a| + i] == b[i];
  }

  lemma RulesBoundPrefix(rules: seq<Validator>, n: nat, r: Record, property: string)
    requires RulesBound(rules, r, property) && n <= |rules|
    ensures RulesBound(rules[..n], r, property)
  {
    assert forall i :: 0 <= i < n ==> rules[..n][i] == rules[i];
  }

  /** A single rule is reported exactly when it applies and fails. */
  lemma BrokenRulesSingle(v: Validator, r: Record, property: string, matches: (string, string) -> bool)
    requires Applies(v, property) ==> Bound(v, r)
    ensures RulesBound([v], r, property)
    ensures BrokenRules([v], r, property, matches) == if Applies(v, property) && Broken(v, r, matches) then [v] else []
  {
    assert [v][..0] == [];
  }

  // ----- this[propertyName] -----

  /** The line the indexer writes for one broken rule. */
  function ErrorLine(query: Option<string>, v: Validator, r: Record, matches: (string, string) -> bool): string
    requires Bound(v, r)
  {
    OrEmpty(query) + OrEmpty(PropertyName(v)) + ": " + OrEmpty(Evaluate(v, r, r, matches).description) + NewLine
  }

  /** The indexer lists a broken rule when every rule was asked for (""), or when its name equals the raw argument. */
  predicate Listed(query: Option<string>, v: Validator) {
    query == Some("") || PropertyName(v) == query
  }

  /** The indexer's text before trimming: one line per listed broken rule. */
  function ErrorLines(broken: seq<Validator>, query: Option<string>, r: Record, matches: (string, string) -> bool): string
    requires forall k :: 0 <= k < |broken| ==> Bound(broken[k], r)
  {
    if broken == [] then ""
    else
      var n := |broken| - 1;
      ErrorLines(broken[..n], query, r, matches)
        + (if Listed(query, broken[n]) then ErrorLine(query, broken[n], r, matches) else "")
  }

  /**
   * this[propertyName]: the broken rules for CleanString(propertyName),
   * filtered against the raw argument, one line each, trimmed; null when
   * nothing is left.
   */
  function ErrorFor(rules: seq<Validator>, r: Record, query: Option<string>, matches: (string, string) -> bool): (e: Option<string>)
    requires RulesBound(rules, r, CleanString(query))
    ensures e.Some? ==> e.value != "" && !IsWhiteSpace(e.value[0])
  {
    var t := Trim(RuleLines(rules, r, query, matches));
    if t == "" then None else Some(t)
  }

  /** The indexer's text before trimming: the lines of the rules broken for the cleaned name, listed against the raw one. */
  function RuleLines(rules: seq<Validator>, r: Record, query: Option<string>, matches: (string, string) -> bool): string
    requires RulesBound(rules, r, CleanString(query))
  {
    ErrorLines(BrokenRules(rules, r, CleanString(query), matches), query, r, matches)
  }

  /**
   * The indexer's text is the lines of the broken rules with only their
   * surrounding whitespace removed, and null when those lines are blank.
   */
  lemma ErrorForText(rules: seq<Validator>, r: Record, query: Option<string>, matches: (string, string) -> bool)
    requires RulesBound(rules, r, CleanString(query))
    ensures ErrorFor(rules, r, query, matches).None? <==> Blank(RuleLines(rules, r, query, matches))
    ensures ErrorFor(rules, r, query, matches).Some? ==>
      TrimmedFrom(RuleLines(rules, r, query, matches), ErrorFor(rules, r, query, matches).value)
  {
    var lines := RuleLines(rules, r, query, matches);
    TrimEmptyIffBlank(lines);
    TrimSlice(lines);
  }

  /** The lines of consecutive groups of broken rules follow one another: one line per listed rule, in order. */
  lemma {:induction false} ErrorLinesConcat(a: seq<Validator>, b: seq<Validator>, query: Option<string>, r: Record, matches: (string, string) -> bool)
    requires forall k :: 0 <= k < |a| ==> Bound(a[k], r)
    requires forall k :: 0 <= k < |b| ==> Bound(b[k], r)
    ensures ErrorLines(a + b, query, r, matches) == ErrorLines(a, query, r, matches) + ErrorLines(b, query, r, matches)
    decreases |b|
  {
    if b == [] {
      assert a + b == a;
    } else {
      var n := |b| - 1;
      var ab := a + b;
      assert ab[..|ab| - 1] == a + b[..n];
      assert ab[|ab| - 1] == b[n];
      ErrorLinesStep(ab, query, r, matches);
      ErrorLinesStep(b, query, r, matches);
      ErrorLinesConcat(a, b[..n], query, r, matches);
      AppendAssoc(ErrorLines(a, query, r, matches), ErrorLines(b[..n], query, r, matches),
        if Listed(query, b[n]) then ErrorLine(query, b[n], r, matches) else "");
    }
  }

  /** One unfolding of the indexer's loop: the last broken rule's line comes after all the others. */
  lemma ErrorLinesStep(broken: seq<Validator>, query: Option<string>, r: Record, matches: (string, string) -> bool)
    requires broken != [] && forall k :: 0 <= k < |broken| ==> Bound(broken[k], r)
    ensures var n := |broken| - 1;
      ErrorLines(broken, query, r, matches) == ErrorLines(broken[..n], query, r, matches)
        + (if Listed(query, broken[n]) then ErrorLine(query, broken[n], r, matches) else "")
  {
  }

  /** One broken rule yields its line when it is listed, and nothing otherwise. */
  lemma ErrorLinesSingle(v: Validator, query: Option<string>, r: Record, matches: (string, string) -> bool)
    requires Bound(v, r)
    ensures ErrorLines([v], query, r, matches) == if Listed(query, v) then ErrorLine(query, v, r, matches) else ""
  {
    assert [v][..0] == [];
  }

  /** When the one rule selected by a clean name passes, nothing is broken and the indexer is null. */
  lemma NamedRulePasses(rules: seq<Validator>, r: Record, name: string, matches: (string, string) -> bool, i: nat)
    requires CleanString(Some(name)) == name
    requires i < |rules| && Bound(rules[i], r) && !Broken(rules[i], r, matches)
    requires forall j :: 0 <= j < |rules| ==> (Applies(rules[j], name) <==> j == i)
    ensures RulesBound(rules, r, name) && BrokenRules(rules, r, name, matches) == []
    ensures ErrorFor(rules, r, Some(name), matches).None?
  {
    NoneBrokenIffAllPass(rules, r, name, matches);
    ErrorForNoneIff(rules, r, Some(name), matches);
  }

  /**
   * A named query with exactly one broken rule of that name reports that
   * rule's line, trimmed: the text starts with the name written twice,
   * once as the argument and once as the rule's property name.
   */
  lemma ErrorForSingle(rules: seq<Validator>, r: Record, name: string, matches: (string, string) -> bool, i: nat)
    requires name != "" && CleanString(Some(name)) == name
    requires RulesBound(rules, r, name) && i < |rules| && PropertyName(rules[i]) == Some(name)
    requires forall j :: 0 <= j < |rules| && Applies(rules[j], name) ==> (Broken(rules[j], r, matches) <==> j == i)
    ensures ErrorFor(rules, r, Some(name), matches) == Some(Trim(ErrorLine(Some(name), rules[i], r, matches)))
    ensures name + name + ":" <= ErrorFor(rules, r, Some(name), matches).value
  {
    var v := rules[i];
    SingleBrokenRule(rules, r, name, matches, i);
    ErrorLinesSingle(v, Some(name), r, matches);
    assert !IsWhiteSpace(name[0]);
    NamedLineKeepsName(name, OrEmpty(Evaluate(v, r, r, matches).description));
  }

  lemma NamedLineKeepsName(name: string, d: string)
    requires name != "" && !IsWhiteSpace(name[0])
    ensures name + name + ":" <= Trim(name + name + ": " + d + NewLine)
  {
    var head := name + name + ":";
    assert name + name + ": " + d + NewLine == head + (" " + d + NewLine);
    assert head[0] == name[0] && head[|head| - 1] == ':';
    TrimKeepsPrefix(head, " " + d + NewLine);
  }

  lemma {:induction false} ErrorLinesBlankIff(broken: seq<Validator>, query: Option<string>, r: Record, matches: (string, string) -> bool)
    requires forall k :: 0 <= k < |broken| ==> Bound(broken[k], r)
    ensures Blank(ErrorLines(broken, query, r, matches)) <==> forall k :: 0 <= k < |broken| ==> !Listed(query, broken[k])
  {
    if broken != [] {
      var n := |broken| - 1;
      ErrorLinesStep(broken, query, r, matches);
      ErrorLinesBlankIff(broken[..n], query, r, matches);
      var last := if Listed(query, broken[n]) then ErrorLine(query, broken[n], r, matches) else "";
      BlankConcat(ErrorLines(broken[..n], query, r, matches), last);
      if Listed(query, broken[n]) {
        ErrorLineNotBlank(query, broken[n], r, matches);
      }
      NoneListedSnoc(broken, query);
    }
  }

  /** A written line always holds the ':' after the names. */
  lemma ErrorLineNotBlank(query: Option<string>, v: Validator, r: Record, matches: (string, string) -> bool)
    requires Bound(v, r)
    ensures !Blank(ErrorLine(query, v, r, matches))
  {
    var head := OrEmpty(query) + OrEmpty(PropertyName(v));
    assert ErrorLine(query, v, r, matches)[|head|] == ':';
  }

  lemma NoneListedSnoc(broken: seq<Validator>, query: Option<string>)
    requires broken != []
    ensures var n := |broken| - 1;
      (forall k :: 0 <= k < |broken| ==> !Listed(query, broken[k])) <==>
        (forall k :: 0 <= k < n ==> !Listed(query, broken[..n][k])) && !Listed(query, broken[n])
  {
    var n := |broken| - 1;
    assert forall k :: 0 <= k < n ==> broken[..n][k] == broken[k];
  }

  lemma ErrorForIsTrimmedLines(rules: seq<Validator>, r: Record, query: Option<string>, matches: (string, string) -> bool)
    requires RulesBound(rules, r, CleanString(query))
    ensures var broken := BrokenRules(rules, r, CleanString(query), matches);
      ErrorFor(rules, r, query, matches).None? <==> Trim(ErrorLines(broken, query, r, matches)) == ""
  {
  }

  lemma TrimmedLinesEmptyIff(broken: seq<Validator>, r: Record, query: Option<string>, matches: (string, string) -> bool)
    requires forall k :: 0 <= k < |broken| ==> Bound(broken[k], r)
    ensures Trim(ErrorLines(broken, query, r, matches)) == "" <==> forall k :: 0 <= k < |broken| ==> !Listed(query, broken[k])
  {
    ErrorLinesBlankIff(broken, query, r, matches);
    TrimEmptyIffBlank(ErrorLines(broken, query, r, matches));
  }

  /** The indexer returns null exactly when no broken rule is listed for the argument. */
  lemma ErrorForNoneIff(rules: seq<Validator>, r: Record, query: Option<string>, matches: (string, string) -> bool)
    requires RulesBound(rules, r, CleanString(query))
    ensures var broken := BrokenRules(rules, r, CleanString(query), matches);
      ErrorFor(rules, r, query, matches).None? <==> forall k :: 0 <= k < |broken| ==> !Listed(query, broken[k])
  {
    ErrorForIsTrimmedLines(rules, r, query, matches);
    TrimmedLinesEmptyIff(BrokenRules(rules, r, CleanString(query), matches), r, query, matches);
  }

  /** this[string.Empty] is null exactly when no rule at all is broken. */
  lemma ErrorForAllNoneIff(rules: seq<Validator>, r: Record, matches: (string, string) -> bool)
    requires RulesBound(rules, r, "")
    ensures ErrorFor(rules, r, Some(""), matches).None? <==> BrokenRules(rules, r, "", matches) == []
  {
    assert CleanString(Some("")) == "";
    ErrorForNoneIff(rules, r, Some(""), matches);
    var broken := BrokenRules(rules, r, "", matches);
    if broken != [] {
      assert Listed(Some(""), broken[0]);
    }
  }

  /**
   * A named query reports only rules with exactly that name, so a name with
   * surrounding blanks reports nothing although its rules were validated
   * under the trimmed name.
   */
  lemma ErrorForUntrimmedName(rules: seq<Validator>, r: Record, name: string, matches: (string, string) -> bool)
    requires name != CleanString(Some(name)) && CleanString(Some(name)) != ""
    requires RulesBound(rules, r, CleanString(Some(name)))
    ensures ErrorFor(rules, r, Some(name), matches).None?
  {
    ErrorForNoneIff(rules, r, Some(name), matches);
  }

  // ----- Error, ChildrenErrors, IsValid -----

  /**
   * Every rule of the object and, recursively, of each non-empty nested
   * object can be validated without throwing.
   */
  predicate Checkable(r: Record, host: Host)
    decreases r
  {
    RulesBound(host.createRules(r.typeName), r, "")
    && forall k :: 0 <= k < |r.fields| && Reports(r.fields[k]) ==> Checkable(r.fields[k].value.record, host)
  }

  /** ChildrenErrors looks only at nested objects that are not empty. */
  predicate Reports(s: Slot) {
    s.value.Nested? && !IsEmpty(s.value.record)
  }

  /** this[string.Empty] of the object itself. */
  function OwnErrors(r: Record, host: Host): Option<string>
    requires Checkable(r, host)
  {
    ErrorFor(host.createRules(r.typeName), r, Some(""), host.matches)
  }

  /** The Error of each data property's value that ChildrenErrors consults, null for the others. */
  function ChildErrors(r: Record, host: Host): (errs: seq<Option<string>>)
    requires Checkable(r, host)
    decreases r, 0
    ensures |errs| == |r.fields|
    ensures forall k :: 0 <= k < |r.fields| && errs[k].Some? ==> Reports(r.fields[k]) && !Blank(errs[k].value)
  {
    seq(|r.fields|, k requires 0 <= k < |r.fields| =>
      if Reports(r.fields[k]) then ErrorOf(r.fields[k].value.record, host) else None)
  }

  /** Each line of a child's Error, prefixed by the property name and a dot, ending in NewLine. */
  function Prefixed(name: string, lines: seq<string>): (r: seq<string>)
    ensures |r| == |lines|
    ensures forall i :: 0 <= i < |lines| ==> r[i] == name + "." + lines[i] + NewLine
  {
    if lines == [] then [] else Prefixed(name, lines[..|lines| - 1]) + [name + "." + lines[|lines| - 1] + NewLine]
  }

  function Concat(parts: seq<string>): string
  {
    if parts == [] then "" else Concat(parts[..|parts| - 1]) + parts[|parts| - 1]
  }

  /** The k-th entry is the Error of a non-empty nested object, and null for every other property. */
  lemma ChildErrorsAt(r: Record, host: Host, k: nat)
    requires Checkable(r, host) && k < |r.fields|
    ensures ChildErrors(r, host)[k] == if Reports(r.fields[k]) then ErrorOf(r.fields[k].value.record, host) else None
  {
  }

  /** The lines ChildrenErrors gathers from the first `k` properties, given their names and their children's errors. */
  function ChildLines(names: seq<string>, errs: seq<Option<string>>, k: nat): seq<string>
    requires |names| == |errs| && k <= |errs|
  {
    if k == 0 then []
    else ChildLines(names, errs, k - 1) + ErrorPiece(names[k - 1], errs[k - 1])
  }

  /** The lines one property contributes: none for a null error. */
  function ErrorPiece(name: string, err: Option<string>): seq<string>
  {
    match err
    case None => []
    case Some(e) => Prefixed(name, SplitLines(e))
  }

  function Names(r: Record): (names: seq<string>)
    ensures |names| == |r.fields| && forall k :: 0 <= k < |r.fields| ==> names[k] == r.fields[k].prop.name
  {
    seq(|r.fields|, k requires 0 <= k < |r.fields| => r.fields[k].prop.name)
  }

  /** The gathered lines, or null when no child contributes one. */
  function Gathered(names: seq<string>, errs: seq<Option<string>>): Option<string>
    requires |names| == |errs|
  {
    var lines := ChildLines(names, errs, |errs|);
    if lines == [] then None else Some(Concat(lines))
  }

  /** ChildrenErrors. */
  function ChildrenErrors(r: Record, host: Host): Option<string>
    requires Checkable(r, host)
    decreases r, 1
  {
    Gathered(Names(r), ChildErrors(r, host))
  }

  /**
   * Error: the object's own errors, a NewLine, then its children's errors;
   * null when the whole text is blank.
   */
  function ErrorOf(r: Record, host: Host): (e: Option<string>)
    requires Checkable(r, host)
    decreases r, 2
    ensures e.Some? ==> !Blank(e.value)
  {
    ErrorText(OwnErrors(r, host), ChildrenErrors(r, host))
  }

  /** The end of Error: the combined text, or null when it trims to nothing. */
  function ErrorText(own: Option<string>, kids: Option<string>): (e: Option<string>)
    ensures e.Some? ==> !Blank(e.value)
  {
    var combined := Combined(own, kids);
    TrimEmptyIffBlank(combined);
    if Trim(combined) == "" then None else Some(combined)
  }

  /** The text Error tests: the object's own errors and a NewLine when there are any, then the children's. */
  function Combined(own: Option<string>, kids: Option<string>): string {
    if own.Some? then own.value + NewLine + OrEmpty(kids) else OrEmpty(kids)
  }

  /** IsValid: Error is null. */
  predicate IsValid(r: Record, host: Host)
    requires Checkable(r, host)
  {
    ErrorOf(r, host).None?
  }

  lemma {:induction false} ConcatBlank(parts: seq<string>)
    requires forall i :: 0 <= i < |parts| ==> '.' in parts[i]
    ensures Blank(Concat(parts)) <==> parts == []
  {
    if parts != [] {
      var n := |parts| - 1;
      ConcatBlank(parts[..n]);
      BlankConcat(Concat(parts[..n]), parts[n]);
      assert !IsWhiteSpace('.');
    }
  }

  /** The prefixed lines of a non-blank error text: at least one, each holding a dot. */
  lemma PrefixedLinesSpec(name: string, e: string)
    requires !Blank(e)
    ensures Prefixed(name, SplitLines(e)) != []
    ensures forall i :: 0 <= i < |Prefixed(name, SplitLines(e))| ==> '.' in Prefixed(name, SplitLines(e))[i]
  {
    SplitLinesOfNonBlank(e);
    var lines := Prefixed(name, SplitLines(e));
    forall i | 0 <= i < |lines| ensures '.' in lines[i] {
      assert lines[i][|name|] == '.';
    }
  }

  /** No line is gathered exactly when every child error is null; every gathered line holds a dot. */
  lemma ChildLinesSpec(names: seq<string>, errs: seq<Option<string>>, k: nat)
    requires |names| == |errs| && k <= |errs|
    requires forall j :: 0 <= j < |errs| && errs[j].Some? ==> !Blank(errs[j].value)
    ensures ChildLines(names, errs, k) == [] <==> forall j :: 0 <= j < k ==> errs[j].None?
    ensures forall i :: 0 <= i < |ChildLines(names, errs, k)| ==> '.' in ChildLines(names, errs, k)[i]
  {
    ChildLinesEmpty(names, errs, k);
    ChildLinesDotted(names, errs, k);
  }

  lemma {:induction false} ChildLinesEmpty(names: seq<string>, errs: seq<Option<string>>, k: nat)
    requires |names| == |errs| && k <= |errs|
    requires forall j :: 0 <= j < |errs| && errs[j].Some? ==> !Blank(errs[j].value)
    ensures ChildLines(names, errs, k) == [] <==> forall j :: 0 <= j < k ==> errs[j].None?
  {
    if k > 0 {
      ChildLinesEmpty(names, errs, k - 1);
      if errs[k - 1].Some? {
        PrefixedLinesSpec(names[k - 1], errs[k - 1].value);
      }
      assert ChildLines(names, errs, k) == ChildLines(names, errs, k - 1) + ErrorPiece(names[k - 1], errs[k - 1]);
    }
  }

  lemma {:induction false} ChildLinesDotted(names: seq<string>, errs: seq<Option<string>>, k: nat)
    requires |names| == |errs| && k <= |errs|
    requires forall j :: 0 <= j < |errs| && errs[j].Some? ==> !Blank(errs[j].value)
    ensures forall i :: 0 <= i < |ChildLines(names, errs, k)| ==> '.' in ChildLines(names, errs, k)[i]
  {
    if k > 0 {
      ChildLinesDotted(names, errs, k - 1);
      var prev := ChildLines(names, errs, k - 1);
      var piece := ErrorPiece(names[k - 1], errs[k - 1]);
      if errs[k - 1].Some? {
        PrefixedLinesSpec(names[k - 1], errs[k - 1].value);
      }
      assert ChildLines(names, errs, k) == prev + piece;
      forall i | 0 <= i < |prev + piece| ensures '.' in (prev + piece)[i] {
        if i < |prev| {
          assert (prev + piece)[i] == prev[i];
        } else {
          assert (prev + piece)[i] == piece[i - |prev|];
        }
      }
    }
  }

  /** Nothing is gathered exactly when every child error is null; otherwise the text is not blank. */
  lemma GatheredSpec(names: seq<string>, errs: seq<Option<string>>)
    requires |names| == |errs|
    requires forall j :: 0 <= j < |errs| && errs[j].Some? ==> !Blank(errs[j].value)
    ensures Gathered(names, errs).None? <==> forall k :: 0 <= k < |errs| ==> errs[k].None?
    ensures Blank(OrEmpty(Gathered(names, errs))) <==> Gathered(names, errs).None?
  {
    ChildLinesSpec(names, errs, |errs|);
    ConcatBlank(ChildLines(names, errs, |errs|));
  }

  /** ChildrenErrors is null exactly when no consulted child has an Error; otherwise its text is not blank. */
  lemma ChildrenErrorsSpec(r: Record, host: Host)
    requires Checkable(r, host)
    ensures ChildrenErrors(r, host).None? <==> forall k :: 0 <= k < |r.fields| ==> ChildErrors(r, host)[k].None?
    ensures Blank(OrEmpty(ChildrenErrors(r, host))) <==> ChildrenErrors(r, host).None?
  {
    var errs := ChildErrors(r, host);
    ChildrenErrorsIsGathered(r, host);
    ChildErrorsNotBlank(r, host);
    GatheredSpec(Names(r), errs);
  }

  lemma ChildrenErrorsIsGathered(r: Record, host: Host)
    requires Checkable(r, host)
    ensures ChildrenErrors(r, host) == Gathered(Names(r), ChildErrors(r, host))
  {
  }

  lemma ChildErrorsNotBlank(r: Record, host: Host)
    requires Checkable(r, host)
    ensures var errs := ChildErrors(r, host); forall j :: 0 <= j < |errs| && errs[j].Some? ==> !Blank(errs[j].value)
  {
  }

  /**
   * IsValid holds exactly when none of the object's own rules is broken and
   * every non-empty nested object is valid (empty nested objects are not
   * validated at all).
   */
  lemma IsValidIff(r: Record, host: Host)
    requires Checkable(r, host)
    ensures IsValid(r, host) <==>
      BrokenRules(host.createRules(r.typeName), r, "", host.matches) == [] &&
      forall k :: 0 <= k < |r.fields| ==> ChildErrors(r, host)[k].None?
  {
    ValidIffNoErrors(r, host);
    ErrorForAllNoneIff(host.createRules(r.typeName), r, host.matches);
    ChildrenErrorsSpec(r, host);
  }

  /** Error is null exactly when the object has no errors of its own and its children report none. */
  lemma ValidIffNoErrors(r: Record, host: Host)
    requires Checkable(r, host)
    ensures IsValid(r, host) <==> OwnErrors(r, host).None? && ChildrenErrors(r, host).None?
  {
    ErrorOfNoneIff(r, host);
    ChildrenErrorsSpec(r, host);
    CombinedBlank(OwnErrors(r, host), ChildrenErrors(r, host));
  }

  lemma ErrorOfNoneIff(r: Record, host: Host)
    requires Checkable(r, host)
    ensures ErrorOf(r, host).None? <==> Blank(Combined(OwnErrors(r, host), ChildrenErrors(r, host)))
  {
    ErrorTextNoneIff(OwnErrors(r, host), ChildrenErrors(r, host));
  }

  lemma ErrorTextNoneIff(own: Option<string>, kids: Option<string>)
    ensures ErrorText(own, kids).None? <==> Blank(Combined(own, kids))
  {
    TrimEmptyIffBlank(Combined(own, kids));
  }

  lemma CombinedBlank(own: Option<string>, kids: Option<string>)
    requires own.Some? ==> !Blank(own.value)
    ensures Blank(Combined(own, kids)) <==> own.None? && Blank(OrEmpty(kids))
  {
    if own.Some? {
      AppendAssoc(own.value, NewLine, OrEmpty(kids));
      BlankConcat(own.value, NewLine + OrEmpty(kids));
    }
  }

  /** An object whose own rules all pass and which has no nested objects is valid. */
  lemma FlatObjectValidIff(r: Record, host: Host)
    requires Checkable(r, host)
    requires forall k :: 0 <= k < |r.fields| ==> !r.fields[k].value.Nested?
    ensures IsValid(r, host) <==> BrokenRules(host.createRules(r.typeName), r, "", host.matches) == []
  {
    IsValidIff(r, host);
  }
}
