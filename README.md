# BusinessObjects in Dafny

This project models the core of the BusinessObjects library (C#): a base class for domain objects that provides three things.

- **Validation.** Each object type declares a list of rules, its validators. The base class collects the broken ones, formats the per-property error strings, and folds in the errors of non-empty child objects.
- **Equality and hashing.** `Equals` compares objects field by field. `GetHashCodeFromFields` is the multiplicative hash fold.
- **XML serialisation.** `WriteXml` writes an object's data properties as elements. `ReadXml` reads them back.

A business object is a value `Record(typeName, options, fields)`.
- The fields are listed in data-property order. That order is the stable sort by the `[DataProperty]` order, with unordered properties last, and it is built by `Records.DataProperties`.
- A field value is a nullable string, decimal or date, a nested record, or a list.

Validators are values of the datatype `Validators.Validator`, and `Validators.Evaluate` gives each one's verdict. Two validators keep state between calls, so each also gets a class with a `Validate` loop proved against `Evaluate`:
- `StatefulValidators.AndCompositeValidator` rewrites its Description.
- `StatefulValidators.ListOfStringLengthValidator` records the offending item's index.

The engine is split in two:
- The pure functions of `Engine`: `BrokenRules`, `ErrorFor` (the indexer), `ChildrenErrors`, `ErrorOf` (the `Error` property) and `IsValid`.
- The class `Objects.BusinessObjectBase`, which holds the lazily created rule list. Its loops are proved to compute those functions.

XML is an element tree, `Node = Leaf(name, text) | Branch(name, children)`:
- `Codec.Encode` and `Codec.ReadRecord` are the specifications of the writer and the reader.
- `Codec.WriteXml` and `Codec.ReadXml` are the loops, proved against them.

The test classes are instances:
- The module `Fixtures` holds `SimpleObject`, `ComplexObject` with its seven rules, and `GetMock()`.
- The module `ValidatorExamples` holds the validators applied on their own.

External behaviour enters as parameters:
- regular-expression matching;
- the country-code table;
- number and date formatting and parsing;
- `Activator.CreateInstance`;
- `CreateRules` per type;
- string hash codes.

## Behaviour of the code as written

The model follows the code as written, including these behaviours:

- **Nested object elements.** `WriteXml` names a nested object's element after the child's type (BusinessObject.cs:85), while `ReadXml` looks the property up by the element's name (BusinessObject.cs:153). So a nested object round-trips only when the property is named like its type. `Codec.RoundTrips` demands exactly this.
- **Objects that write nothing.** An object none of whose properties is written gets a self-closing element (BusinessObject.cs:85-87). `ReadXml` then reads on past it into the parent's elements (BusinessObject.cs:150-151), so `Codec.RoundTrip` requires some element to be written (`Codec.WritesElementIff`).
- **Null values.** With `SerializeNullValues`, a null string is written as an empty element and read back as `""`, so the copy does not `Equals` the original (`Codec.NullStringReadsBackEmpty`).
- **Nullable decimals.** `ReadXml` replaces only `DateTime?` by its underlying type before calling `ReadElementContentAs` (BusinessObject.cs:177-182), so a written `decimal?` is not read back (see "## Findings").
- **List elements.** Items are written under the item type's name (BusinessObject.cs:136) but read only while the element is named like the list property (BusinessObject.cs:205). So the list items of `ListOfBusinessObject` are skipped on reading (`Fixtures.ListItemsSkippedOnRead`).
- **List equality.** Lists compare by reference (`v1.Equals(v2)` on `List<T>`). A record with a list field never `Equals` a copy holding another list instance (`Equality.DistinctListsNeverEqual`).
- **XorRequiredValidator.** Its doc comment says "at least one". The code demands exactly one (`Validators.XorExactlyOne`).

## Model

| member | source | states |
|---|---|---|
| Text.TrimStart | BusinessObjects/BusinessObjectBase.cs:184 | the result is a suffix of the input that does not start with white space, and only white space was dropped |
| Text.TrimEnd | BusinessObjects/BusinessObjectBase.cs:184 | the result is a prefix of the input that does not end with white space, and only white space was dropped |
| Text.TrimEmptyIffBlank | BusinessObjects/BusinessObjectBase.cs:101-104 | trimming gives "" exactly when the string is all white space (the test the indexer and Error use to return null) |
| Text.BlankConcat | BusinessObjects/BusinessObjectBase.cs:46-47 | a concatenation is blank iff both parts are |
| Text.TrimKeeps | BusinessObjects/BusinessObjectBase.cs:101 | a string holding any non-white-space character does not trim to "" |
| Text.TrimUntouched | BusinessObjects/BusinessObjectBase.cs:184 | a string with no white space at either end is its own trim |
| Text.TrimSlice | BusinessObjects/BusinessObjectBase.cs:184 | Trim gives the piece of the string between its first and last non-white-space characters, with only white space around it |
| Text.TrimKeepsPrefix | BusinessObjects/BusinessObjectBase.cs:101 | trimming keeps a leading piece that neither starts nor ends with white space |
| Text.TrimEndOf | BusinessObjects/Validators/Validator.cs:56 | TrimEnd(' ', ','): the longest prefix whose last character is not in the set; everything removed is in the set |
| Text.SegmentsJoin | BusinessObjects/BusinessObjectBase.cs:77 | splitting on "\r\n" and re-joining gives the string back |
| Text.SegmentsHaveNoBreak | BusinessObjects/BusinessObjectBase.cs:77 | no piece of the split contains "\r\n" |
| Text.SplitLinesOfNonBlank | BusinessObjects/BusinessObjectBase.cs:77-80 | Split with RemoveEmptyEntries of a non-blank error leaves at least one line |
| Text.AllEmptyJoinBlank | BusinessObjects/BusinessObjectBase.cs:77 | when every piece is empty, the string was blank |
| Text.NatToString | BusinessObjects/Validators/LengthValidator.cs:14 | the decimal rendering used in default descriptions is non-empty and made of digits |
| Text.NatToStringValue | BusinessObjects/Validators/LengthValidator.cs:14 | the digits spell n, with no leading zero |
| Text.IntToString | BusinessObjects/Validators/LengthValidator.cs:14 | non-empty, starts with '-' exactly when the number is negative, and digits follow |
| Text.IntToStringValue | BusinessObjects/Validators/LengthValidator.cs:14 | the digits after the sign spell the number's absolute value |
| Records.FindField | BusinessObjects/BusinessObject.cs:153 | FirstOrDefault by name: the first field with that name, or none when no field has it |
| Records.SetField | BusinessObjects/BusinessObject.cs:182 | PropertyInfo.SetValue: field k gets the new value, type, options and every other field unchanged |
| Records.NoFieldsIsEmpty | BusinessObjects/BusinessObjectBase.cs:201-223 | a type without data properties is empty |
| Records.NonNullScalarOrListMakesNonEmpty | BusinessObjects/BusinessObjectBase.cs:207-221 | a non-null decimal or date, or any list, makes the object non-empty |
| Records.InsertByOrderPermutes | BusinessObjects/BusinessObjectBase.cs:232 | one step of the OrderBy sort loses and invents no property |
| Records.InsertByOrderSorted | BusinessObjects/BusinessObjectBase.cs:232 | one step of the sort keeps the sequence sorted by order, unordered last |
| Records.InsertByOrderStable | BusinessObjects/BusinessObjectBase.cs:232 | one step of the sort keeps properties with the same order in their relative position |
| Records.InsertByOrderSplit | BusinessObjects/BusinessObjectBase.cs:232 | a property is inserted after every property of strictly smaller order and before the first of larger or equal order |
| Records.DataPropertiesOrder | BusinessObjects/BusinessObjectBase.cs:230-233 | GetAllDataProperties is sorted by order with unordered properties last, is a permutation of the declared ones, and is stable for each order key |
| Records.UnorderedLastInDeclarationOrder | BusinessObjects/BusinessObjectBase.cs:230-233 | after the first unordered property only unordered ones follow, and they keep declaration order |
| Validators.SetPropertyName | BusinessObjects/Validators/Validator.cs:58 | the internal PropertyName setter changes the stored name and nothing else |
| Validators.AggregateIsJoinPlusSeparator | BusinessObjects/Validators/Validator.cs:55 | the Aggregate over the properties is the names joined by ", " with a trailing ", " |
| Validators.TrimEndOfSeparatorSuffix | BusinessObjects/Validators/Validator.cs:56 | TrimEnd(' ', ',') removes exactly that trailing ", " when the last name does not end in either character |
| Validators.PropertyNameOfProperties | BusinessObjects/Validators/Validator.cs:52-57 | with Properties set, PropertyName is "[" + names joined by ", " + "]", and "[]" for no names |
| Validators.PropertyNameOfPair | BusinessObjects/Validators/Validator.cs:55-56 | two properties a and b are named "[a, b]" |
| Validators.SetPropertyNameHiddenByProperties | BusinessObjects/Validators/Validator.cs:52-59 | with Properties set, assigning PropertyName does not change the reported name |
| Validators.SetPropertyNameReadsBack | BusinessObjects/Validators/Validator.cs:54 | without Properties, PropertyName reads back what was assigned |
| Validators.HashCode | BusinessObjects/Validators/Validator.cs:85-87 | GetHashCode is the string hash of the Description, and throws exactly when the Description is null |
| Validators.LengthValidator | BusinessObjects/Validators/LengthValidator.cs:18-21 | name, description, min and max are stored as given |
| Validators.LengthValidatorOf | BusinessObjects/Validators/LengthValidator.cs:14-15 | single length: min = max = length, description "Length must be {n}." |
| Validators.LengthValidatorBetween | BusinessObjects/Validators/LengthValidator.cs:17 | description "Length must be between {min} and {max}." |
| Validators.ListOfStringLengthValidatorOf | BusinessObjects/Validators/ListOfStringLengthValidator.cs:17-18 | min = max = length, description "Length must be {n}" without a period |
| Validators.ListOfStringLengthValidatorBetween | BusinessObjects/Validators/ListOfStringLengthValidator.cs:20-22 | description "Length must be between {min} and {max}" without a period |
| Validators.RequiredValidatorAnonymous | BusinessObjects/Validators/RequiredValidator.cs:10 | no property name, description "Required." |
| Validators.RequiredValidator | BusinessObjects/Validators/RequiredValidator.cs:11-12 | name and description stored as given |
| Validators.RequiredValidatorDefault | BusinessObjects/Validators/RequiredValidator.cs:11 | the given name with the default description "Required." |
| Validators.DomainValidator | BusinessObjects/Validators/DomainValidator.cs:12-17 | name, description and Domain stored; the two-argument form leaves Domain null |
| Validators.CountryValidator | BusinessObjects/Validators/CountryValidator.cs:10-14 | a domain rule whose Domain is the two-letter code table |
| Validators.CountryValidatorDefault | BusinessObjects/Validators/CountryValidator.cs:10 | the same domain rule with the default description "Must be a ISO 3166-1 alpha 2 code ([IT], [UK], [...])" |
| Validators.RegexValidator | BusinessObjects/Validators/RegexValidator.cs:10-13 | name, description and pattern stored as given |
| Validators.RegexValidatorDefault | BusinessObjects/Validators/RegexValidator.cs:10 | the given name and pattern with the default description "Unrecognized format." |
| Validators.DelegateValidator | BusinessObjects/Validators/DelegateValidator.cs:24-38 | name, description and delegate stored as given |
| Validators.XorRequiredValidator | BusinessObjects/Validators/XorRequiredValidator.cs:14-15 | the Properties array and description are stored as given |
| Validators.XorRequiredValidatorDefault | BusinessObjects/Validators/XorRequiredValidator.cs:14 | the given Properties with the default description "Required." |
| Validators.AndCompositeValidator | BusinessObjects/Validators/AndCompositeValidator.cs:15-20 | the composite has the given name and a null Description, and every child is the original with PropertyName set to that name |
| Validators.AndCompositeRenamesChildren | BusinessObjects/Validators/AndCompositeValidator.cs:17-19 | every child without Properties reports the composite's name |
| Validators.FirstOffender | BusinessObjects/Validators/ListOfStringLengthValidator.cs:26-32 | the index of the first item out of range, all before it in range; none iff every item is in range |
| Validators.Combine | BusinessObjects/Validators/AndCompositeValidator.cs:26-34 | the composite passes iff every child passes, and its Description is null exactly when it passes |
| Validators.Evaluate | BusinessObjects/Validators/Validator.cs:69 | Validate of any rule, the composite through its children: a composite's Description is null exactly when it passes; every rule but the composite and the list rule keeps its Description |
| Validators.EvaluateLeaf | BusinessObjects/Validators/LengthValidator.cs:23-26 | the Validate overrides of the leaf rules (also RequiredValidator.cs:17-30, DomainValidator.cs:21-24, RegexValidator.cs:20-23, DelegateValidator.cs:50-52, XorRequiredValidator.cs:20-23, ListOfStringLengthValidator.cs:24-42): only a failing list rule changes the Description, and then to a non-null one |
| Validators.LengthSemantics | BusinessObjects/Validators/LengthValidator.cs:23-26 | passes iff the value is null, "" or of length within [min, max]; Description unchanged |
| Validators.ListOfStringLengthSemantics | BusinessObjects/Validators/ListOfStringLengthValidator.cs:24-42 | passes iff every item is null, "" or in range; on failure the Description is "desc (#i)." for the first offending i |
| Validators.RequiredOnString | BusinessObjects/Validators/RequiredValidator.cs:20-23 | a string passes iff it is non-null and non-empty |
| Validators.RequiredOnNested | BusinessObjects/Validators/RequiredValidator.cs:25-28 | a nested object passes iff it is not empty |
| Validators.DomainSemantics | BusinessObjects/Validators/DomainValidator.cs:21-24 | passes iff the value is null, "" or an entry of Domain |
| Validators.RegexSemantics | BusinessObjects/Validators/RegexValidator.cs:20-23 | passes iff the value is null, "" or matched by the pattern |
| Validators.DelegateIgnoresTarget | BusinessObjects/Validators/DelegateValidator.cs:50-52 | the verdict is the delegate's result and does not depend on the object passed in |
| Validators.XorOfTwo | BusinessObjects/Validators/XorRequiredValidator.cs:20-23 | with two properties: passes iff exactly one holds neither null nor "" |
| Validators.CountSetIsSetNames | BusinessObjects/Validators/XorRequiredValidator.cs:21 | the count is the number of named properties that are set |
| Validators.XorExactlyOne | BusinessObjects/Validators/XorRequiredValidator.cs:20-23 | passes iff exactly one named property is set; failing means none or at least two |
| Validators.FailingTextOfPassing | BusinessObjects/Validators/AndCompositeValidator.cs:28-31 | children that all pass contribute no text |
| Validators.FailingTextSnoc | BusinessObjects/Validators/AndCompositeValidator.cs:28-31 | one more child appends its Description only when it fails |
| Validators.AndCompositeSemantics | BusinessObjects/Validators/AndCompositeValidator.cs:26-34 | passes iff every child passes, and then the Description is null |
| Validators.FoldDescriptionIsFailingText | BusinessObjects/Validators/AndCompositeValidator.cs:27-31 | the `Description +=` loop leaves null iff no child failed, else the failing descriptions in order |
| Validators.FoldIsCombine | BusinessObjects/Validators/AndCompositeValidator.cs:26-34 | the loop's result and Description agree with the composite verdict |
| Validators.EvaluateComposite | BusinessObjects/Validators/AndCompositeValidator.cs:26-34 | the composite's outcome is the combination of its children's outcomes, every child evaluated |
| Validators.AndCompositeSingleFailure | BusinessObjects/Validators/AndCompositeValidator.cs:28-31 | with exactly one failing child, the Description is that child's |
| Validators.FailingTextSplit | BusinessObjects/Validators/AndCompositeValidator.cs:28-31 | with exactly one failing outcome, the concatenation is its description |
| StatefulValidators.AndCompositeValidator.constructor | BusinessObjects/Validators/AndCompositeValidator.cs:15-20 | builds the composite value: renamed children, null Description |
| StatefulValidators.AndCompositeValidator.Validate | BusinessObjects/Validators/AndCompositeValidator.cs:26-34 | the loop's result and the Description it leaves are the composite's outcome |
| StatefulValidators.FoldOutcomes | BusinessObjects/Validators/AndCompositeValidator.cs:26-33 | the result is true iff every child passed, and the Description is the failing children's descriptions appended in order, null when none failed |
| StatefulValidators.ListOfStringLengthValidator.constructor | BusinessObjects/Validators/ListOfStringLengthValidator.cs:22 | stores name, description, min and max with no offending index |
| StatefulValidators.ListOfStringLengthValidator.SetDescription | BusinessObjects/Validators/ListOfStringLengthValidator.cs:42 | the setter stores the undecorated description |
| StatefulValidators.ListOfStringLengthValidator.Validate | BusinessObjects/Validators/ListOfStringLengthValidator.cs:24-34 | returns whether all items are in range; on failure records the first offending index; on success keeps the old index; agrees with the pure verdict and description |
| Engine.CleanString | BusinessObjects/BusinessObjectBase.cs:183-185 | null gives "", and the result is "" exactly when the string is blank |
| Engine.CleanStringTrimmed | BusinessObjects/BusinessObjectBase.cs:183-185 | the result is the piece of the string between its first and last non-white-space characters, with only white space around it |
| Engine.BrokenRules | BusinessObjects/BusinessObjectBase.cs:122-144 | only rules that apply to the property and are broken are listed, and there are no more of them than rules |
| Engine.BrokenRulesMembers | BusinessObjects/BusinessObjectBase.cs:133-142 | every listed rule is a rule of the object, and every applicable broken rule is listed |
| Engine.BrokenRulesConcat | BusinessObjects/BusinessObjectBase.cs:133-143 | the broken rules of two consecutive groups of rules are those of the first followed by those of the second: an in-order filter that keeps multiplicity |
| Engine.BrokenRulesSingle | BusinessObjects/BusinessObjectBase.cs:135-141 | one rule is collected exactly when it applies to the property and fails |
| Engine.NoneBrokenIffAllPass | BusinessObjects/BusinessObjectBase.cs:133-143 | the collection is empty iff every applicable rule passes |
| Engine.SingleBrokenRule | BusinessObjects/BusinessObjectBase.cs:133-143 | when exactly one applicable rule is broken, the collection is exactly that rule |
| Engine.UnknownPropertyHasNoBrokenRules | BusinessObjects/BusinessObjectBase.cs:135 | a name no rule carries selects no rule, so nothing is broken and nothing is evaluated |
| Engine.ErrorFor | BusinessObjects/BusinessObjectBase.cs:91-107 | the indexer's result, when not null, is non-empty and trimmed at the front |
| Engine.ErrorForText | BusinessObjects/BusinessObjectBase.cs:93-105 | the indexer is null exactly when the accumulated lines are blank, and otherwise returns those lines with only their surrounding white space removed |
| Engine.ErrorLinesConcat | BusinessObjects/BusinessObjectBase.cs:95-100 | the lines for consecutive groups of broken rules follow one another, so the text is the in-order concatenation of the rules' lines |
| Engine.ErrorLinesSingle | BusinessObjects/BusinessObjectBase.cs:96-99 | one broken rule adds propertyName + its PropertyName + ": " + its Description + NewLine when listed, and nothing otherwise |
| Engine.ErrorLineNotBlank | BusinessObjects/BusinessObjectBase.cs:97 | a written line is never blank, since it holds ':' |
| Engine.ErrorForSingle | BusinessObjects/BusinessObjectBase.cs:91-107 | with one broken rule named like the trimmed argument, the indexer returns that rule's line, trimmed, and it starts with the name twice followed by ':' |
| Engine.NamedRulePasses | BusinessObjects/BusinessObjectBase.cs:91-143 | when the one rule named like the query passes, nothing is broken for it and the indexer is null |
| Engine.ErrorLinesBlankIff | BusinessObjects/BusinessObjectBase.cs:95-100 | the accumulated lines are blank iff no broken rule passes the indexer's name filter |
| Engine.ErrorForIsTrimmedLines | BusinessObjects/BusinessObjectBase.cs:101-105 | null exactly when the trimmed lines are "" |
| Engine.TrimmedLinesEmptyIff | BusinessObjects/BusinessObjectBase.cs:95-104 | the trimmed lines are "" iff no broken rule is listed |
| Engine.ErrorForNoneIff | BusinessObjects/BusinessObjectBase.cs:91-107 | the indexer is null iff no broken rule for the cleaned name is listed under the raw name |
| Engine.ErrorForAllNoneIff | BusinessObjects/BusinessObjectBase.cs:91-107 | this[""] is null iff no rule is broken |
| Engine.ErrorForUntrimmedName | BusinessObjects/BusinessObjectBase.cs:96 | a name with surrounding white space gives a null indexer: rules are selected by the trimmed name but listed only under the raw one |
| Engine.ChildErrors | BusinessObjects/BusinessObjectBase.cs:61-72 | one entry per property; only a non-empty nested object reports, and a report is never blank |
| Engine.Prefixed | BusinessObjects/BusinessObjectBase.cs:78-80 | each child error line becomes "name." + line + NewLine |
| Engine.ChildErrorsAt | BusinessObjects/BusinessObjectBase.cs:63-72 | the entry for a property is the child's Error when it reports, otherwise none |
| Engine.ErrorOf | BusinessObjects/BusinessObjectBase.cs:38-52 | Error, when not null, is not blank |
| Engine.ErrorText | BusinessObjects/BusinessObjectBase.cs:46-50 | the combined text, when not null, is not blank |
| Engine.ErrorTextNoneIff | BusinessObjects/BusinessObjectBase.cs:46-50 | null exactly when the own errors, NewLine and children errors together are blank |
| Engine.CombinedBlank | BusinessObjects/BusinessObjectBase.cs:46 | with non-blank own errors the combination is never blank; without them it is blank iff the children errors are |
| Engine.ErrorOfNoneIff | BusinessObjects/BusinessObjectBase.cs:38-52 | Error is null exactly when this[""] joined to ChildrenErrors is blank |
| Engine.PrefixedLinesSpec | BusinessObjects/BusinessObjectBase.cs:77-80 | a non-blank child error yields at least one prefixed line |
| Engine.ChildLinesSpec | BusinessObjects/BusinessObjectBase.cs:61-81 | no lines are gathered iff no child reported |
| Engine.GatheredSpec | BusinessObjects/BusinessObjectBase.cs:57-84 | ChildrenErrors is null iff no child reported, and is blank exactly when null |
| Engine.ChildrenErrorsSpec | BusinessObjects/BusinessObjectBase.cs:57-84 | ChildrenErrors is null iff no non-empty child object has errors |
| Engine.ChildErrorsNotBlank | BusinessObjects/BusinessObjectBase.cs:69-72 | every child report is non-blank |
| Engine.IsValidIff | BusinessObjects/BusinessObjectBase.cs:30-52 | IsValid iff no own rule is broken and no non-empty child object has errors |
| Engine.ValidIffNoErrors | BusinessObjects/BusinessObjectBase.cs:30-52 | IsValid iff this[""] is null and ChildrenErrors is null |
| Engine.FlatObjectValidIff | BusinessObjects/BusinessObjectBase.cs:30-52 | without nested objects, IsValid iff no rule is broken |
| Objects.BusinessObjectBase.constructor | BusinessObjects/BusinessObjectBase.cs:25 | a new object has no rule list yet |
| Objects.BusinessObjectBase.GetBrokenRules | BusinessObjects/BusinessObjectBase.cs:122-144 | creates the rules once (CreateRules only while the list is null, then reused unchanged) and returns BrokenRules for the cleaned name |
| Objects.BusinessObjectBase.Item | BusinessObjects/BusinessObjectBase.cs:91-107 | the indexer loop returns ErrorFor |
| Objects.AppendRuleLines | BusinessObjects/BusinessObjectBase.cs:95-100 | the line loop builds Engine.ErrorLines: one line per listed broken rule, in order |
| Objects.BusinessObjectBase.ChildrenErrors | BusinessObjects/BusinessObjectBase.cs:57-84 | the property loop returns Engine.ChildrenErrors |
| Objects.BusinessObjectBase.Error | BusinessObjects/BusinessObjectBase.cs:38-52 | returns ErrorOf |
| Objects.CombineErrors | BusinessObjects/BusinessObjectBase.cs:46-50 | the concatenation and the blank test compute Engine.ErrorText |
| Objects.BusinessObjectBase.IsValid | BusinessObjects/BusinessObjectBase.cs:30-34 | returns Engine.IsValid, that is Error == null |
| Objects.BusinessObjectBase.IsEmpty | BusinessObjects/BusinessObjectBase.cs:201-223 | the counting loop returns Records.IsEmpty |
| Objects.GatherChildrenErrors | BusinessObjects/BusinessObjectBase.cs:57-84 | the nested loops of ChildrenErrors compute Engine.ChildrenErrors |
| Objects.AppendErrorLines | BusinessObjects/BusinessObjectBase.cs:71-80 | appending one child's lines extends the accumulated text by that child's prefixed lines |
| Objects.AppendPrefixed | BusinessObjects/BusinessObjectBase.cs:78-80 | the inner loop appends the prefixed lines in order |
| Objects.CollectBroken | BusinessObjects/BusinessObjectBase.cs:130-143 | the rule loop collects exactly BrokenRules |
| Objects.ValidateRule | BusinessObjects/BusinessObjectBase.cs:136 | isRuleBroken is the negated verdict |
| Objects.RuleDescription | BusinessObjects/BusinessObjectBase.cs:97 | the Description read after Validate |
| Equality.EqualsObject | BusinessObjects/BusinessObjectBase.cs:251-257 | Equals(object) is false for null and for an object of another type name, and true only for one of the same type name |
| Equality.EqualsTo | BusinessObjects/BusinessObjectBase.cs:237-250 | an object without data properties equals anything; with some, comparing to an object of another type throws (GetValue on the wrong target) |
| Equality.FieldsEqualFrom | BusinessObjects/BusinessObjectBase.cs:242-249 | the loop answering true means every remaining property was found on the other object and compared equal |
| Equality.SlotEquals | BusinessObjects/BusinessObjectBase.cs:243-245 | `v1 != v2 && !v1.Equals(v2)`: a null equals only null and throws against a value; a scalar or list compares true exactly when the values are the same (lists by reference); a nested object never equals a non-object |
| Equality.OpEquals | BusinessObjects/BusinessObjectBase.cs:258-264 | two nulls are ==, a null and a non-null are not |
| Equality.OpNotEquals | BusinessObjects/BusinessObjectBase.cs:266-272 | two nulls are not !=, a null and a non-null are |
| Equality.NotEqualsIsNegation | BusinessObjects/BusinessObjectBase.cs:266-272 | != throws exactly when == does and is otherwise its negation |
| Equality.OpEqualsAgreesWithEqualsObject | BusinessObjects/BusinessObjectBase.cs:258-264 | on two non-null objects of one type, == is Equals(object) |
| Equality.EqualsObjectVersusOperatorAcrossTypes | BusinessObjects/BusinessObjectBase.cs:251-264 | across types Equals(object) is false, but == reads a missing property and throws |
| Equality.SameDataEquals | BusinessObjects/BusinessObjectBase.cs:237-257 | objects holding the same data (lists by reference) are Equals and == |
| Equality.EqualsSameData | BusinessObjects/BusinessObjectBase.cs:237-257 | on a well-formed object and one of the same layout, Equals returning true means the two hold the same data |
| Equality.EqualsIffSameData | BusinessObjects/BusinessObjectBase.cs:237-257 | for objects of the same layout, Equals is true exactly when they hold the same data |
| Equality.SameDataFieldsEqual | BusinessObjects/BusinessObjectBase.cs:242-249 | the comparison loop accepts every field from any position on when the data agree |
| Equality.EqualsReflexive | BusinessObjects/BusinessObjectBase.cs:237-257 | a well-formed object Equals itself |
| Equality.SameDataSymmetric | BusinessObjects/BusinessObjectBase.cs:245 | holding the same data is symmetric |
| Equality.EqualsNotSymmetric | BusinessObjects/BusinessObjectBase.cs:245 | a null field against a set one throws one way and is false the other way |
| Equality.DistinctListsNeverEqual | BusinessObjects/BusinessObjectBase.cs:245 | two different list instances make the objects unequal, whatever their items |
| Hashing.Wrap32 | BusinessObjects/BusinessObjectBase.cs:290-297 | unchecked int arithmetic: the result lies in the int range and is congruent modulo 2^32 |
| Hashing.HashFromFieldsSnoc | BusinessObjects/BusinessObjectBase.cs:293-295 | one more field multiplies by 397 + h when non-null and leaves the hash otherwise |
| Hashing.HashSkipsNulls | BusinessObjects/BusinessObjectBase.cs:294 | null fields do not affect the hash |
| Hashing.AllNullHash | BusinessObjects/BusinessObjectBase.cs:292-296 | with only null fields the hash is the seed 691 |
| Hashing.GetHashCodeFromFields | BusinessObjects/BusinessObjectBase.cs:288-298 | the loop computes the fold HashFromFields |
| Hashing.HashIsWrappedProduct | BusinessObjects/BusinessObjectBase.cs:288-298 | the hash is 691 times the product of (397 + h) over non-null fields, wrapped to 32 bits |
| Hashing.HashOrderIndependent | BusinessObjects/BusinessObjectBase.cs:288-298 | permuting the fields does not change the hash |
| Hashing.HashFromFields | BusinessObjects/BusinessObjectBase.cs:288-298 | GetHashCodeFromFields returns a 32-bit int |
| Hashing.HashCodeAsWritten | BusinessObjects/BusinessObjectBase.cs:273-275 | as written, the hash is 691 × (397 + the hash of the property enumerable), wrapped: nothing of the object's values enters it |
| Hashing.HashCode | BusinessObjects/BusinessObjectBase.cs:273-275 | the intended hash over the property values is a 32-bit int, and an object whose values are all null hashes to the seed 691 |
| Hashing.HashCodeAsWrittenBreaksEquality | BusinessObjects/BusinessObjectBase.cs:273-275 | as written, two GetHashCode calls on one object (which Equals itself) can differ |
| Hashing.EqualsImpliesSameHash | BusinessObjects/BusinessObjectBase.cs:273-275 | with the values hashed as intended, Equals objects have equal hash codes |
| Codec.DateFormatFor | BusinessObjects/BusinessObject.cs:106 | a date format applies iff one is set and the property is not [IgnoreXmlDateFormat] |
| Codec.EncodedElements | BusinessObjects/BusinessObject.cs:78-120 | a skipped property writes nothing; a written null an empty element named after the property; a string its text under the property name; a nested object one element named after its type holding its own encoding; a list one element per item; failures only come from lists or children |
| Codec.ItemsEncoding | BusinessObjects/BusinessObject.cs:129-140 | WriteXmlList writes one element per item, in order, named after the item's type |
| Codec.FirstFailureStops | BusinessObjects/BusinessObject.cs:76-121 | an exception at one property ends the writing |
| Codec.FirstItemFailureStops | BusinessObjects/BusinessObject.cs:133-139 | an exception at one item ends the list |
| Codec.EncodedPrefix | BusinessObjects/BusinessObject.cs:76-121 | the writer only appends: the elements of the first k properties are a prefix of the output |
| Codec.WriteXml | BusinessObjects/BusinessObject.cs:75-122 | the property loop writes Encode |
| Codec.WriteProperty | BusinessObjects/BusinessObject.cs:78-120 | the loop body writes EncodeValue |
| Codec.WriteXmlList | BusinessObjects/BusinessObject.cs:129-140 | the enumerator loop writes the items' elements |
| Codec.ReadRecord | BusinessObjects/BusinessObject.cs:148-185 | a successful read keeps the target's type, options and properties |
| Codec.ReadChildren | BusinessObjects/BusinessObject.cs:151-183 | the element loop keeps the target's layout |
| Codec.ReadElement | BusinessObjects/BusinessObject.cs:153-182 | each step consumes at least one element and keeps the layout |
| Codec.ReadList | BusinessObjects/BusinessObject.cs:193-210 | reading a list never moves the cursor backwards |
| Codec.ReadItems | BusinessObjects/BusinessObject.cs:205-209 | an element named like the list property is always consumed |
| Codec.ElementContent | BusinessObjects/BusinessObject.cs:182 | an element's text can be read iff it has no child elements |
| Codec.ReadScalar | BusinessObjects/BusinessObject.cs:177-182 | a read scalar is non-null; a string or date stays a string or date; strings read back their text; elements with children throw |
| Codec.DecimalNeverRead | BusinessObjects/BusinessObject.cs:177-182 | a decimal? property is never read: only DateTime? is replaced by its underlying type, and ReadElementContentAs rejects Nullable<decimal> |
| Codec.ReadScalarIntended | BusinessObjects/BusinessObject.cs:177-182 | the reader with decimal? also replaced by decimal: a read scalar keeps the property's kind, and it agrees with ReadScalar on strings and dates |
| Codec.DecimalReadsBackIntended | BusinessObjects/BusinessObject.cs:108-182 | with decimal? read as decimal, a written decimal reads back as the same number whenever parsing inverts formatting |
| Codec.ReadXml | BusinessObjects/BusinessObject.cs:148-185 | the reader loop computes ReadRecord |
| Codec.ReadXmlList | BusinessObjects/BusinessObject.cs:193-210 | the list loop computes ReadList |
| Codec.ItemsRead | BusinessObjects/BusinessObject.cs:203-209 | the list is cleared, then one freshly created and read item is added per consecutive element named like the property, stopping at the first other element |
| Codec.UnknownElementsSkipped | BusinessObjects/BusinessObject.cs:153-158 | elements that name no property leave the object unchanged |
| Codec.UnnamedPropertyKept | BusinessObjects/BusinessObject.cs:151-183 | a property with no element keeps its previous value |
| Codec.ElementKeepsOthers | BusinessObjects/BusinessObject.cs:153-182 | reading one element changes no property of another name |
| Codec.ReproducibleEncodes | BusinessObjects/BusinessObject.cs:75-121 | writing an object that round-trips never fails |
| Codec.WritesElementIff | BusinessObjects/BusinessObject.cs:75-121 | an object that round-trips writes at least one element exactly when one of its properties is written; otherwise its own element is self-closing |
| Codec.RoundTrip | BusinessObjects/BusinessObject.cs:75-185 | writing then reading into a fresh object of the type gives back the same data, for objects that write at least one element and whose written properties are text the XML reader gives back unchanged, dates, or nested objects named like their type that themselves write an element |
| Codec.RoundTripEquals | BusinessObjects/BusinessObject.cs:75-185 | the object read back Equals the original, both ways |
| Codec.NullStringReadsBackEmpty | BusinessObjects/BusinessObject.cs:116-120 | with SerializeNullValues a null string comes back as "", and the copy is not Equals |
| Fixtures.SimpleObjectOrder | BusinessObjects.Tests/SimpleObject.cs:10-23 | SimpleObject's data properties in writing order: AnotherProperty, SimpleProperty, then the unordered ones in declaration order |
| Fixtures.ComplexObjectOrder | BusinessObjects.Tests/ComplexObject.cs:37-62 | ComplexObject's order: First, Second, And, Country, Delegate, SimpleObject, then Length, Required, Regex |
| Fixtures.SimpleObjectEmptiness | BusinessObjects.Tests/BusinessObjectBaseTests.cs:10-16 | a new SimpleObject is empty; with SimpleProperty "hello" it is not |
| Fixtures.MockElementOrder | BusinessObjects.Tests/BusinessObjectTests.cs:25-57 | the mock with SecondProperty "second" is written as First, Second, And, Delegate, SimpleObject(Another, Simple), Required |
| Fixtures.NullFirstPropertyWritten | BusinessObjects.Tests/BusinessObjectTests.cs:59-78 | with SerializeNullValues the null FirstProperty is the first, empty, element |
| Fixtures.EmptyFirstPropertyWritten | BusinessObjects.Tests/BusinessObjectTests.cs:81-101 | with SerializeEmptyStrings the empty FirstProperty is the first, empty, element |
| Fixtures.MockRoundTrip | BusinessObjects.Tests/BusinessObjectTests.cs:11-23 | the mock written and read into a new ComplexObject Equals the original |
| Fixtures.ListItemsSkippedOnRead | BusinessObjects/BusinessObject.cs:193-210 | ListOfBusinessObject's items are written as ComplexObject elements, which the reader skips |
| Fixtures.SimpleDecimalNotReadBack | BusinessObjects/BusinessObject.cs:177-182 | a SimpleObject with DecimalProperty 1.5 is written as one DecimalProperty element, and reading it back fails with the Nullable<decimal> error |
| Fixtures.TestHost | BusinessObjects.Tests/ComplexObject.cs:19-36 | CreateRules gives ComplexObject's seven rules and SimpleObject none |
| Fixtures.ComplexVerdicts | BusinessObjects.Tests/ComplexObject.cs:19-36 | each of the seven rules is broken exactly on its violation |
| Fixtures.ComplexLengthRuleVerdict | BusinessObjects.Tests/ComplexObject.cs:22 | Length(1, 5) on LengthProperty is broken iff the text is set and its length is outside 1..5 |
| Fixtures.ComplexRequiredRuleVerdict | BusinessObjects.Tests/ComplexObject.cs:23 | broken iff RequiredProperty is null or "" |
| Fixtures.ComplexCountryRuleVerdict | BusinessObjects.Tests/ComplexObject.cs:24 | broken iff CountryProperty is set and not a code |
| Fixtures.ComplexDelegateRuleVerdict | BusinessObjects.Tests/ComplexObject.cs:25 | broken iff DelegateProperty is not "dummy" |
| Fixtures.ComplexRegexRuleVerdict | BusinessObjects.Tests/ComplexObject.cs:26 | broken iff RegexProperty is set and does not match "dummy" |
| Fixtures.ComplexXorVerdict | BusinessObjects.Tests/ComplexObject.cs:27 | broken iff First and Second are both set or both unset |
| Fixtures.ComplexAndVerdict | BusinessObjects.Tests/ComplexObject.cs:28-34 | broken iff AndProperty is not "And" |
| Fixtures.AndRuleVerdict | BusinessObjects.Tests/ComplexObject.cs:28-34 | the composite on AndProperty is broken iff the text is not "And" |
| Fixtures.SimpleObjectValid | BusinessObjects.Tests/SimpleObject.cs:6-24 | a SimpleObject has no rules and is always valid |
| Fixtures.ComplexValidIff | BusinessObjects/BusinessObjectBase.cs:30-52 | a ComplexObject is valid iff none of its own rules is broken |
| Fixtures.OnlyRuleBroken | BusinessObjects.Tests/BaseClass.cs:36-40 | with exactly one violation, that rule is the only broken one and the object is invalid |
| Fixtures.NoRuleBroken | BusinessObjects.Tests/BaseClass.cs:17-22 | with no violation, nothing is broken and the object is valid |
| Fixtures.NewComplexObjectInvalid | BusinessObjects.Tests/BusinessObjectBaseTests.cs:28-34 | a new ComplexObject is invalid with only the Required rule broken |
| Fixtures.RequiredPropertySetValid | BusinessObjects.Tests/BusinessObjectBaseTests.cs:36-37 | setting RequiredProperty makes it valid |
| Fixtures.MockValid | BusinessObjects.Tests/BaseClass.cs:9-15 | the mock breaks no rule |
| Fixtures.MockTexts | BusinessObjects.Tests/ComplexObject.cs:10-16 | the mock's strings: first, null, And, null, dummy, null, hello, null |
| Fixtures.LengthTooLongInvalid | BusinessObjects.Tests/BusinessObjectBaseTests.cs:45-47 | "too long for ya" breaks only the Length rule |
| Fixtures.LengthInRangeValid | BusinessObjects.Tests/BusinessObjectBaseTests.cs:49-50 | "hello" is valid |
| Fixtures.CountryUnknownInvalid | BusinessObjects.Tests/BusinessObjectBaseTests.cs:58-61 | "Don't think so" breaks only the Country rule |
| Fixtures.CountryEmptyValid | BusinessObjects.Tests/BusinessObjectBaseTests.cs:63-65 | "" is valid |
| Fixtures.CountryKnownValid | BusinessObjects.Tests/BusinessObjectBaseTests.cs:67-68 | "IT" is valid |
| Fixtures.DelegateChangedInvalid | BusinessObjects.Tests/BusinessObjectBaseTests.cs:76-79 | any DelegateProperty other than "dummy" breaks only the Delegate rule |
| Fixtures.RegexMismatchInvalid | BusinessObjects.Tests/BusinessObjectBaseTests.cs:90-93 | a non-matching RegexProperty breaks only the Regex rule |
| Fixtures.RegexMatchValid | BusinessObjects.Tests/BusinessObjectBaseTests.cs:95-96 | "dummy" is valid |
| Fixtures.XorNeitherInvalid | BusinessObjects.Tests/BusinessObjectBaseTests.cs:104-108 | neither First nor Second set breaks only the Xor rule |
| Fixtures.XorSecondOnlyValid | BusinessObjects.Tests/BusinessObjectBaseTests.cs:110-111 | only Second set is valid |
| Fixtures.AndNullInvalid | BusinessObjects.Tests/BusinessObjectBaseTests.cs:119-122 | a null AndProperty breaks only the composite |
| Fixtures.ComplexRuleNames | BusinessObjects.Tests/ComplexObject.cs:22-34 | the seven rules are named LengthProperty, RequiredProperty, CountryProperty, DelegateProperty, RegexProperty, "[FirstProperty, SecondProperty]" and AndProperty |
| Fixtures.XorRuleName | BusinessObjects.Tests/ComplexObject.cs:27 | the Xor rule is named "[FirstProperty, SecondProperty]" |
| Fixtures.RuleSelectedByName | BusinessObjects/BusinessObjectBase.cs:135 | querying a rule's property name selects that rule alone |
| Fixtures.RuleNameClean | BusinessObjects.Tests/ComplexObject.cs:22-34 | each rule name is non-empty and left as it is by the indexer's cleaning |
| Fixtures.PropertyBroken | BusinessObjects.Tests/BaseClass.cs:50-59 | a violated rule is the only one broken for its property, and the indexer is not null |
| Fixtures.PropertyPasses | BusinessObjects.Tests/BaseClass.cs:30-34 | a satisfied rule gives no broken rule and a null indexer for its property |
| Fixtures.NonExistingProperty | BusinessObjects.Tests/BusinessObjectBaseTests.cs:19-23 | "non_existing_property" has no broken rules and a null indexer |
| ValidatorExamples.LengthExamples | BusinessObjects.Tests/ValidatorTests.cs:14-37 | Length(2, 5): null, "", "12", "123", "12345" pass; "1", "123456" fail |
| ValidatorExamples.LengthAt | BusinessObjects/Validators/LengthValidator.cs:23-26 | Length(2, 5) on SimpleProperty passes iff the text is null, "" or 2 to 5 long |
| ValidatorExamples.RequiredExamples | BusinessObjects.Tests/ValidatorTests.cs:40-51 | "hello" passes, "" fails |
| ValidatorExamples.DomainExamples | BusinessObjects.Tests/ValidatorTests.cs:54-70 | {"ONE", "TWO"}: null, "", "ONE", "TWO" pass; "THREE" fails |
| ValidatorExamples.CountryExamples | BusinessObjects.Tests/ValidatorTests.cs:73-87 | null, "", "IT" pass; "XX" fails |
| ValidatorExamples.DelegateExamples | BusinessObjects.Tests/ValidatorTests.cs:90-101 | "hello" passes, "bye" fails |
| ValidatorExamples.RegexExamples | BusinessObjects.Tests/ValidatorTests.cs:104-114 | the digits pattern passes "1234567890" and fails "ABC1234567890" |
| ValidatorExamples.AndCompositeExamples | BusinessObjects.Tests/ValidatorTests.cs:117-131 | Required and Length(5): "12345" passes; null, "123", "123456" fail |
| ValidatorExamples.XorName | BusinessObjects/Validators/Validator.cs:55-56 | the pair is named "[SimpleProperty, AnotherProperty]" |
| ValidatorExamples.XorValidExamples | BusinessObjects.Tests/ValidatorTests.cs:139-148 | exactly one of the two set passes, "" counting as unset |
| ValidatorExamples.XorInvalidExamples | BusinessObjects.Tests/ValidatorTests.cs:150-160 | none set or both set fails |

## Findings

| source | as written | input that shows it | evidently intended | confidence | as-written member | corrected member |
|---|---|---|---|---|---|---|
| BusinessObjects/BusinessObjectBase.cs:273-275 | `GetHashCodeFromFields(GetAllDataProperties())` passes the property enumerable as the one `params` element, so the hash is that of a fresh enumerable object, not of the values | any object hashed twice: its two enumerables have different hash codes, while the object Equals itself | the hash of the data property values, so that Equals objects hash alike | high, not executed | Hashing.HashCodeAsWritten, Hashing.HashCodeAsWrittenBreaksEquality | Hashing.HashCode, Hashing.EqualsImpliesSameHash |
| BusinessObjects/BusinessObject.cs:177-182 | only `DateTime?` is replaced by its underlying type before `ReadElementContentAs(propertyType, null)`, so a `decimal?` property asks for `Nullable<decimal>`, which the XmlReader does not convert to | SimpleObject with DecimalProperty 1.5, written and read back | decimal? replaced by decimal as DateTime? is, so written decimals read back | medium, not executed | Codec.ReadScalar, Codec.DecimalNeverRead, Fixtures.SimpleDecimalNotReadBack | Codec.ReadScalarIntended, Codec.DecimalReadsBackIntended |

## Left out

- JSON serialisation (`ToJson`, `ShouldSerialize*`, BusinessObject.cs:30-56): a wrapper over Newtonsoft.Json.
- `WriteXml(string fileName)` (BusinessObject.cs:65-68): writer construction and file output.
- XmlReader/XmlWriter mechanics are not modelled: whitespace, self-closing tags, attributes and mixed content. The round trip excludes the inputs where these matter (see Codec.RoundTrip below). An element is a `Node`, and the reader's position is an index among siblings.
- Formatting and parsing of decimals and dates (`ToString(format)`, `WriteValue`, `ReadElementContentAs`) are the functions in `Codec.XmlEnv`. The round trip assumes only that parsing inverts formatting.
- Regular-expression matching is the parameter `matches(input, pattern)`.
- The `Country` class is not part of this model. The code table is the parameter `codes`, so its 250 entries and the "AF" at index 1 are not stated.
- Reflection and `Activator.CreateInstance`:
  - Each record carries its data properties in order.
  - `CreateRules` and `CreateInstance` are functions of the type name, in `Engine.Host` and `Codec.XmlEnv`.
- Change notification (`PropertyChanged`, `NotifyChanged`, `OnPropertyChanged`) and CallerAttributes.cs: event plumbing and attribute declarations, with no effect on the modelled results.
- Objects are values, so `Codec.ReadRecord` returns the updated record rather than filling the target in place. Aliasing between a nested object and other references to it is not modelled. When reading fails part-way, the model returns an error instead of the partly filled object.
- Codec.ReadList: reading a list whose items are not business objects consumes nothing, so `ReadXml` never terminates. It is modelled as `Err(NoProgress)`.
- Codec.EncodeValue: `WriteXmlList` on a non-empty list of strings casts a string to BusinessObject and throws. It is modelled as `Err(NullReference)`.
- Records.Value: a null nested object and a null list cannot be represented; a nested or list field always holds a value. In the source, `WriteXml` writes a null nested object as an empty element under SerializeNullValues, `WriteXmlList` throws on a null list, `ReadXml` dereferences the null property (BusinessObject.cs:165), `IsEmpty` counts a null nested object as empty and `RequiredValidator` fails on it.
- Codec.EncodeValue: see Records.Value; null nested objects and null lists are not written.
- Codec.ReadElement: see Records.Value; reading into a null nested object or list is not modelled.
- Codec.ReadRecord: reads with the as-written ReadScalar, so decimals are never read back; the corrected ReadScalarIntended is stated on its own (see "## Findings").
- Codec.RoundTrip: not claimed for objects holding a decimal, a non-empty list, a null written under SerializeNullValues, or a nested object whose property name differs from its type name. `Codec.RoundTrips` says which properties qualify.
- Codec.RoundTrip: not claimed for an object, the root or a nested one, that writes no element. Its element is then self-closing (BusinessObject.cs:85-87), and `ReadStartElement` followed by the loop at BusinessObject.cs:150-151 runs on into the parent's elements. `Codec.WritesElement` states the condition.
- Codec.RoundTrip: not claimed for strings that the XML writer and reader do not give back unchanged: a carriage return ("\r\n" and "\r" are read back as "\n"), text of white space only (read back as "" by a reader that ignores white space), or a character XML does not allow (the writer throws). `Codec.KeptText` states the condition.
- Validators.Evaluate: requires the property a rule reads to exist and to have the type the rule casts it to, and requires a non-null Domain or pattern when the value is not empty. In the source these cases throw (NullReferenceException, InvalidCastException, ArgumentNullException), and the model does not cover them.
- Validators.Evaluate: lengths are counted in Unicode scalar values, while C# `string.Length` counts UTF-16 code units. A character outside the Basic Multilingual Plane counts 1 here and 2 in C#, so `Length` and `ListOfStringLength` can disagree with the source on such strings.
- Validators.Evaluate: a delegate's closure is the record `env` it observes, rather than arbitrary captured state.
- StatefulValidators.AndCompositeValidator.Validate: the children are evaluated before the loop that appends their descriptions, whereas the source evaluates each child lazily inside the loop. Evaluation is pure here, so the order makes no difference to the result; a stateful child whose own Description changes when it runs is not modelled inside a composite.
- StatefulValidators.ListOfStringLengthValidator: the `Min` and `Max` it reads are modelled as the constructor's min and max. The LengthValidator.cs shown here keeps them in private fields.
- Engine.BrokenRules: the pure function states nothing about evaluating a rule twice. The stateful effects of `Validate` (the composite's Description, the list rule's index) are proved in `StatefulValidators`, and the engine reports only the descriptions of broken rules, which do not depend on that state.
- `Validator.ToString()` (Validator.cs:75-77) returns the Description. It is not a separate function here: `Validators.HashCode` reads the `description` field directly.
- Hashing.HashCode: string, decimal, date and list hash codes are the parameters in `ValueHashes`. `Validators.HashCode` likewise takes the string hash as a parameter.
