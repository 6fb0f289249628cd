/**
 * The two validators whose Description depends on what their last
 * Validate call saw. Each class keeps the mutable state of the C# object
 * and its Validate loop is proved to agree with `Validators.Evaluate`.
 */
module StatefulValidators {
  import opened Wrappers
  import opened Text
  import opened Records
  import opened Validators

  /** AndCompositeValidator: all children must pass; Validate rewrites Description. */
  class AndCompositeValidator {
    const propertyName: Option<string>
    const children: seq<Validator>
    var description: Option<string>

    /** The rule as a value, for the pure evaluation. */
    function AsValidator(): Validator
      reads this
    {
      Validator(propertyName, None, description, AndComposite(children))
    }

    /** The constructor renames every child to the composite's property name; Description starts null. */
    constructor(name: Option<string>, validators: seq<Validator>)
      ensures AsValidator() == Validators.AndCompositeValidator(name, validators)
    {
      propertyName := name;
      children := seq(|validators|, i requires 0 <= i < |validators| => SetPropertyName(validators[i], name));
      description := None;
    }

    /**
     * Validate: Description is reset to null, then each failing child's
     * Description is appended to it (a null string appending as "").
     */
    method Validate(target: Record, env: Record, matches: (string, string) -> bool) returns (result: bool)
      requires Bound(AsValidator(), target)
      modifies this`description
      ensures Outcome(result, description) == Evaluate(old(AsValidator()), target, env, matches)
    {
      EvaluateComposite(AsValidator(), target, env, matches);
      var outs := Outcomes(children, target, env, matches);
      result, description := FoldOutcomes(outs);
    }
  }

  /**
   * The loop of AndCompositeValidator.Validate over the children's
   * outcomes, in order: the description starts null, and each failing
   * child's description is appended to it.
   */
  method FoldOutcomes(outs: seq<Outcome>) returns (result: bool, description: Option<string>)
    ensures Outcome(result, description) == Combine(outs)
  {
    FoldIsCombine(outs);
    result := true;
    description := None;
    for i := 0 to |outs|
      invariant description == FoldDescription(outs, i)
      invariant result == description.None?
    {
      FoldDescriptionStep(outs, i);
      if !outs[i].passed {
        description := Some(Plus(description, outs[i].description));
        result := false;
      }
    }
  }

  /** ListOfStringLengthValidator: every item of a list of strings must have an allowed length. */
  class ListOfStringLengthValidator {
    const propertyName: Option<string>
    const min: int
    const max: int
    var description: Option<string>
    var offendingIndex: Option<nat>

    /** The Description getter: the stored text, plus " (#i)." once an offending item has been found. */
    function Description(): Option<string>
      reads this
    {
      if offendingIndex.None? then description
      else Some(OffenderDescription(description, offendingIndex.value))
    }

    /** The rule as a value, with the stored description. */
    function AsValidator(): Validator
      reads this
    {
      Validator(propertyName, None, description, ListOfStringLength(min, max))
    }

    constructor(name: Option<string>, description: Option<string>, min: int, max: int)
      ensures AsValidator() == Validator(name, None, description, ListOfStringLength(min, max))
      ensures offendingIndex.None? && Description() == description
    {
      propertyName := name;
      this.min := min;
      this.max := max;
      this.description := description;
      offendingIndex := None;
    }

    /** The Description setter writes the stored text; a remembered offending index stays. */
    method SetDescription(d: Option<string>)
      modifies this`description
      ensures description == d
    {
      description := d;
    }

    /**
     * Validate: scans the items in order and stops at the first one that is
     * neither null, nor empty, nor within [min, max], remembering its index.
     * A passing call leaves the index of an earlier failure in place.
     */
    method Validate(target: Record) returns (result: bool)
      requires HasStrings(target, propertyName)
      modifies this`offendingIndex
      ensures var items := Lookup(target, propertyName).value.strings;
        result <==> forall j :: 0 <= j < |items| ==> LengthOk(items[j], min, max)
      ensures !result ==> offendingIndex == FirstOffender(Lookup(target, propertyName).value.strings, min, max)
      ensures result ==> offendingIndex == old(offendingIndex)
      ensures result == Evaluate(AsValidator(), target, target, (_, _) => false).passed
      ensures !result ==> Description() == Evaluate(AsValidator(), target, target, (_, _) => false).description
    {
      var items := Lookup(target, propertyName).value.strings;
      var i := 0;
      while i < |items|
        invariant i <= |items|
        invariant forall j :: 0 <= j < i ==> LengthOk(items[j], min, max)
        invariant offendingIndex == old(offendingIndex)
      {
        var s := items[i];
        if !(IsNullOrEmpty(s) || (|s.value| >= min && |s.value| <= max)) {
          offendingIndex := Some(i);
          return false;
        }
        i := i + 1;
      }
      return true;
    }
  }
}
