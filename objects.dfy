/**
 * BusinessObjectBase as an object: the lazily created rule list, and the
 * loops of GetBrokenRules, the indexer, ChildrenErrors, Error, IsValid and
 * IsEmpty, each proved to compute the corresponding function of Engine.
 */
module Objects {
  import opened Wrappers
  import opened Text
  import opened Records
  import opened Validators
  import opened Engine

  class BusinessObjectBase {
    /** The values of the data properties (what reflection reads and writes). */
    var record: Record
    /** The Rules field: null until the first GetBrokenRules call. */
    var rules: Option<seq<Validator>>
    const typeName: string
    const host: Host

    /** The rule list, once created, is what CreateRules gave for this type. */
    ghost predicate Valid()
      reads this
    {
      record.typeName == typeName &&
      (rules.Some? ==> rules.value == host.createRules(typeName))
    }

    constructor (r: Record, host: Host)
      ensures Valid() && record == r && rules.None? && typeName == r.typeName && this.host == host
    {
      record := r;
      rules := None;
      typeName := r.typeName;
      this.host := host;
    }

    /**
     * GetBrokenRules(property): creates the rule list on first use (and only
     * then), validates every rule that applies to the cleaned name, and
     * returns the broken ones in rule order.
     */
    method GetBrokenRules(property: Option<string>) returns (broken: seq<Validator>)
      requires Valid()
      requires RulesBound(host.createRules(typeName), record, CleanString(property))
      modifies this`rules
      ensures Valid() && rules.Some?
      ensures old(rules).Some? ==> rules == old(rules)
      ensures broken == BrokenRules(rules.value, record, CleanString(property), host.matches)
    {
      var name := CleanString(property);
      if rules.None? {
        rules := Some(host.createRules(typeName));
      }
      var all := rules.value;
      broken := CollectBroken(all, record, name, host.matches);
    }

    /**
     * this[propertyName]: one line per listed broken rule, trimmed, null
     * when nothing remains.
     */
    method Item(propertyName: Option<string>) returns (e: Option<string>)
      requires Valid()
      requires RulesBound(host.createRules(typeName), record, CleanString(propertyName))
      modifies this`rules
      ensures Valid() && rules.Some?
      ensures old(rules).Some? ==> rules == old(rules)
      ensures e == ErrorFor(host.createRules(typeName), record, propertyName, host.matches)
    {
      var broken := GetBrokenRules(propertyName);
      var result := AppendRuleLines(broken, propertyName, record, host.matches);
      ErrorForUnfold(host.createRules(typeName), record, propertyName, host.matches);
      result := Trim(result);
      if |result| == 0 {
        e := None;
      } else {
        e := Some(result);
      }
    }

    /**
     * ChildrenErrors: for each non-empty nested object with an Error, each
     * non-empty line of that Error prefixed by the property name and a dot.
     * The nested objects are values here, so their Error is ErrorOf.
     */
    method ChildrenErrors() returns (result: Option<string>)
      requires Valid() && Checkable(record, host)
      ensures result == Engine.ChildrenErrors(record, host)
    {
      result := GatherChildrenErrors(record, host);
    }

    /** Error: own errors, a NewLine and the children's errors; null when all blank. */
    method Error() returns (e: Option<string>)
      requires Valid() && Checkable(record, host)
      modifies this`rules
      ensures Valid() && rules.Some?
      ensures e == ErrorOf(record, host)
    {
      var r := record;
      TrimUntouched("");
      var result := Item(Some(""));
      assert record == r;
      var childrenErrors := GatherChildrenErrors(r, host);
      e := CombineErrors(result, childrenErrors);
    }

    /** IsValid: Error == null. */
    method IsValid() returns (valid: bool)
      requires Valid() && Checkable(record, host)
      modifies this`rules
      ensures Valid() && rules.Some?
      ensures valid == Engine.IsValid(record, host)
    {
      var e := Error();
      valid := e.None?;
    }

    /**
     * IsEmpty(): counts the properties holding null, an empty string or an
     * empty nested object, and compares the count with the number of
     * properties.
     */
    method IsEmpty() returns (empty: bool)
      ensures empty == Records.IsEmpty(record)
    {
      var props := record.fields;
      var i := 0;
      for k := 0 to |props|
        invariant i <= k
        invariant i == k <==> forall j :: 0 <= j < k ==> EmptyValue(props[j].value)
      {
        var v := props[k].value;
        if IsNull(v) {
          i := i + 1;
        } else if v.Str? {
          if IsNullOrEmpty(v.text) {
            i := i + 1;
          }
        } else if v.Nested? && Records.IsEmpty(v.record) {
          i := i + 1;
        }
      }
      empty := i == |props|;
    }
  }

  /** The end of Error: own errors, a NewLine and the children's errors, or null when that is blank. */
  method CombineErrors(result: Option<string>, childrenErrors: Option<string>) returns (e: Option<string>)
    ensures e == ErrorText(result, childrenErrors)
  {
    var combined := if result.Some? then result.value + NewLine + OrEmpty(childrenErrors) else OrEmpty(childrenErrors);
    assert combined == Combined(result, childrenErrors);
    if |Trim(combined)| == 0 {
      e := None;
    } else {
      e := Some(combined);
    }
  }

  /** The loop of ChildrenErrors over the data properties of `r`. */
  method GatherChildrenErrors(r: Record, host: Host) returns (result: Option<string>)
    requires Checkable(r, host)
    ensures result == Engine.ChildrenErrors(r, host)
  {
    result := None;
    for k := 0 to |r.fields|
      invariant result == Gathering(r, host, k)
    {
      result := GatherChild(r, host, k, result);
    }
    GatheringComplete(r, host);
  }

  /** The text ChildrenErrors has gathered after the first k properties. */
  ghost function Gathering(r: Record, host: Host, k: nat): Option<string>
    requires Checkable(r, host) && k <= |r.fields|
  {
    Joined(ChildLines(Names(r), ChildErrors(r, host), k))
  }

  lemma GatheringComplete(r: Record, host: Host)
    requires Checkable(r, host)
    ensures Gathering(r, host, |r.fields|) == Engine.ChildrenErrors(r, host)
  {
    ChildrenErrorsIsGathered(r, host);
  }

  /** One iteration of ChildrenErrors' property loop: a non-empty nested object contributes its error lines. */
  method GatherChild(r: Record, host: Host, k: nat, acc: Option<string>) returns (result: Option<string>)
    requires Checkable(r, host) && k < |r.fields|
    requires acc == Gathering(r, host, k)
    ensures result == Gathering(r, host, k + 1)
  {
    ghost var names := Names(r);
    ghost var errs := ChildErrors(r, host);
    ghost var lines := ChildLines(names, errs, k);
    ChildErrorsStep(r, host, names, errs, k);
    result := acc;
    var v := r.fields[k].value;
    if v.Nested? && !Records.IsEmpty(v.record) {
      var childErrors := ErrorOf(v.record, host);
      result := AppendErrorLines(acc, lines, r.fields[k].prop.name, childErrors);
    }
  }

  /** The lines of a child's Error, if it has one, appended to the text gathered so far. */
  method AppendErrorLines(acc: Option<string>, ghost lines: seq<string>, name: string, err: Option<string>)
    returns (result: Option<string>)
    requires acc == Joined(lines)
    ensures result == Joined(lines + ErrorPiece(name, err))
  {
    result := acc;
    if err.Some? {
      var errors := SplitLines(err.value);
      result := AppendPrefixed(result, lines, name, errors);
    } else {
      assert lines + [] == lines;
    }
  }

  /** The inner loop of ChildrenErrors: `result += name + "." + error + NewLine` for each error line. */
  method AppendPrefixed(acc: Option<string>, ghost lines: seq<string>, name: string, errors: seq<string>) returns (result: Option<string>)
    requires acc == Joined(lines)
    ensures result == Joined(lines + Prefixed(name, errors))
  {
    result := acc;
    ghost var done := lines;
    for m := 0 to |errors|
      invariant done == lines + Prefixed(name, errors[..m])
      invariant result == Joined(done)
    {
      PrefixedSnoc(name, errors, m);
      var line := name + "." + errors[m] + NewLine;
      AppendLine(done, line);
      result := Some(OrEmpty(result) + line);
      done := done + [line];
    }
    assert errors[..|errors|] == errors;
  }

  lemma AppendLine(lines: seq<string>, line: string)
    ensures Concat(lines + [line]) == Concat(lines) + line
  {
    assert (lines + [line])[..|lines|] == lines;
  }

  lemma BrokenRulesSnoc(all: seq<Validator>, i: nat, r: Record, name: string, matches: (string, string) -> bool)
    requires i < |all| && RulesBound(all, r, name)
    ensures RulesBound(all[..i], r, name) && RulesBound(all[..i + 1], r, name)
    ensures Applies(all[i], name) ==> Bound(all[i], r)
    ensures BrokenRules(all[..i + 1], r, name, matches) == BrokenRules(all[..i], r, name, matches)
      + (if Applies(all[i], name) && Broken(all[i], r, matches) then [all[i]] else [])
  {
    assert all[..i + 1][..i] == all[..i];
  }

  lemma ErrorLinesSnoc(broken: seq<Validator>, i: nat, query: Option<string>, r: Record, matches: (string, string) -> bool)
    requires i < |broken| && forall k :: 0 <= k < |broken| ==> Bound(broken[k], r)
    ensures ErrorLines(broken[..i + 1], query, r, matches) == ErrorLines(broken[..i], query, r, matches)
      + (if Listed(query, broken[i]) then ErrorLine(query, broken[i], r, matches) else "")
  {
    assert broken[..i + 1][..i] == broken[..i];
  }

  /** The loop of the indexer: one line per listed broken rule, each ended by NewLine. */
  method AppendRuleLines(broken: seq<Validator>, propertyName: Option<string>, r: Record, matches: (string, string) -> bool)
      returns (result: string)
    requires forall k :: 0 <= k < |broken| ==> Bound(broken[k], r)
    ensures result == ErrorLines(broken, propertyName, r, matches)
  {
    result := "";
    for i := 0 to |broken|
      invariant result == ErrorLines(broken[..i], propertyName, r, matches)
    {
      ErrorLinesSnoc(broken, i, propertyName, r, matches);
      var v := broken[i];
      if propertyName == Some("") || PropertyName(v) == propertyName {
        var description := RuleDescription(v, r, matches);
        var line := OrEmpty(propertyName) + OrEmpty(PropertyName(v)) + ": " + OrEmpty(description);
        ghost var before := result;
        result := result + line;
        result := result + NewLine;
        AppendAssoc(before, line, NewLine);
      }
    }
    assert broken[..|broken|] == broken;
  }

  /** The loop of GetBrokenRules over the rule list. */
  method CollectBroken(all: seq<Validator>, r: Record, name: string, matches: (string, string) -> bool) returns (broken: seq<Validator>)
    requires RulesBound(all, r, name)
    ensures broken == BrokenRules(all, r, name, matches)
  {
    broken := [];
    for i := 0 to |all|
      invariant broken == BrokenRules(all[..i], r, name, matches)
    {
      BrokenRulesSnoc(all, i, r, name, matches);
      var v := all[i];
      if PropertyName(v) == Some(name) || name == "" {
        var isRuleBroken := ValidateRule(v, r, matches);
        if isRuleBroken {
          broken := broken + [v];
        }
      }
    }
    assert all[..|all|] == all;
  }

  /** `!validator.Validate(this)`. */
  method ValidateRule(v: Validator, r: Record, matches: (string, string) -> bool) returns (isRuleBroken: bool)
    requires Bound(v, r)
    ensures isRuleBroken == Broken(v, r, matches)
  {
    var outcome := Evaluate(v, r, r, matches);
    isRuleBroken := !outcome.passed;
  }

  /** `validator.Description` after the rule was validated on the object. */
  method RuleDescription(v: Validator, r: Record, matches: (string, string) -> bool) returns (description: Option<string>)
    requires Bound(v, r)
    ensures description == Evaluate(v, r, r, matches).description
  {
    var outcome := Evaluate(v, r, r, matches);
    description := outcome.description;
  }

  lemma ErrorForUnfold(rules: seq<Validator>, r: Record, query: Option<string>, matches: (string, string) -> bool)
    requires RulesBound(rules, r, CleanString(query))
    ensures var t := Trim(ErrorLines(BrokenRules(rules, r, CleanString(query), matches), query, r, matches));
      ErrorFor(rules, r, query, matches) == if t == "" then None else Some(t)
  {
  }

  /** One step of ChildrenErrors: what the k-th property adds to the gathered lines. */
  lemma ChildErrorsStep(r: Record, host: Host, names: seq<string>, errs: seq<Option<string>>, k: nat)
    requires Checkable(r, host) && k < |r.fields|
    requires names == Names(r) && errs == ChildErrors(r, host)
    ensures Reports(r.fields[k]) ==> Checkable(r.fields[k].value.record, host)
    ensures errs[k] == if Reports(r.fields[k]) then ErrorOf(r.fields[k].value.record, host) else None
    ensures ChildLines(names, errs, k + 1) == ChildLines(names, errs, k) + ErrorPiece(r.fields[k].prop.name, errs[k])
    ensures !Reports(r.fields[k]) ==> ChildLines(names, errs, k + 1) == ChildLines(names, errs, k)
  {
    ChildErrorsAt(r, host, k);
    assert ChildLines(names, errs, k) + [] == ChildLines(names, errs, k);
  }

  /** ChildrenErrors' accumulator: null until a line is appended. */
  function Joined(lines: seq<string>): Option<string>
  {
    if lines == [] then None else Some(Concat(lines))
  }

  lemma PrefixedSnoc(name: string, lines: seq<string>, m: nat)
    requires m < |lines|
    ensures Prefixed(name, lines[..m + 1]) == Prefixed(name, lines[..m]) + [name + "." + lines[m] + NewLine]
  {
    assert lines[..m + 1][..m] == lines[..m];
  }
}
