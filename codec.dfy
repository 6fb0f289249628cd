/**
 * The XML codec of BusinessObject: WriteXml(XmlWriter) with WriteXmlList,
 * and ReadXml(XmlReader) with ReadXmlList. The XML document is an element
 * tree; the writer appends elements to a sequence and the reader walks the
 * child elements of one element with a cursor.
 */
module Codec {
  import opened Wrappers
  import opened Text
  import opened Records
  import opened Equality

  /**
   * An XML element: one holding text only, or one holding child elements
   * only. An empty element is Leaf(name, "").
   */
  datatype Node = Leaf(name: string, text: string) | Branch(name: string, children: seq<Node>)

  /** The .NET formatting, parsing and activation the codec relies on. */
  datatype XmlEnv = XmlEnv(
    decimalText: (real, Option<string>) -> string,  // decimal.ToString(format, InvariantCulture); None: XmlWriter.WriteValue
    dateText: (int, Option<string>) -> string,      // DateTime.ToString(format); None: XmlWriter.WriteValue
    parseDecimal: string -> Option<real>,           // ReadElementContentAs for decimal
    parseDate: string -> Option<int>,               // ReadElementContentAs for DateTime
    createInstance: string -> Record)               // Activator.CreateInstance of a list's item type

  // ----- WriteXml -----

  /** The date format WriteXml applies to a property: none when it is marked [IgnoreXmlDateFormat]. */
  function DateFormatFor(p: Property, opts: XmlOptions): (fmt: Option<string>)
    ensures fmt.Some? <==> opts.dateTimeFormat.Some? && !p.ignoreXmlDateFormat
    ensures fmt.Some? ==> fmt == opts.dateTimeFormat
  {
    if opts.dateTimeFormat.Some? && !p.ignoreXmlDateFormat then opts.dateTimeFormat else None
  }

  /** The inner content WriteXml writes for `r`: its data properties in order, under r's own options. */
  function Encode(r: Record, env: XmlEnv): Result<seq<Node>, Failure>
    decreases r, 3
  {
    EncodeFields(r, |r.fields|, env)
  }

  /** The elements written for the first k data properties; the first failure stops the writer. */
  function EncodeFields(r: Record, k: nat, env: XmlEnv): Result<seq<Node>, Failure>
    requires k <= |r.fields|
    decreases r, 2, k
  {
    if k == 0 then Ok([])
    else match EncodeFields(r, k - 1, env)
      case Err(e) => Err(e)
      case Ok(prefix) =>
        match EncodeValue(r.fields[k - 1].prop, r.fields[k - 1].value, r.options, env)
        case Err(e) => Err(e)
        case Ok(elements) => Ok(prefix + elements)
  }

  /** The elements written for property p holding v. */
  function EncodeValue(p: Property, v: Value, opts: XmlOptions, env: XmlEnv): Result<seq<Node>, Failure>
    decreases v, 1
  {
    if IsNull(v) then Ok(if opts.serializeNullValues then [Leaf(p.name, "")] else [])
    else match v
      case Nested(c) =>
        if IsEmpty(c) && !opts.serializeEmptyBusinessObjects then Ok([])
        else (match Encode(c, env)
          case Err(e) => Err(e)
          case Ok(inner) => Ok([Branch(c.typeName, inner)]))
      case RecordList(_, _, items) => EncodeItems(v, |items|, env)
      case StringList(_, strings) => if strings == [] then Ok([]) else Err(NullReference)
      case Str(s) => Ok(if s.value != "" || opts.serializeEmptyStrings then [Leaf(p.name, s.value)] else [])
      case Date(t) => Ok([Leaf(p.name, env.dateText(t.value, DateFormatFor(p, opts)))])
      case Dec(d) => Ok([Leaf(p.name, env.decimalText(d.value, opts.decimalFormat))])
  }

  /** WriteXmlList: one element per item of the first k, each named after the item's type. */
  function EncodeItems(v: Value, k: nat, env: XmlEnv): Result<seq<Node>, Failure>
    requires v.RecordList? && k <= |v.items|
    decreases v, 0, k
  {
    if k == 0 then Ok([])
    else match EncodeItems(v, k - 1, env)
      case Err(e) => Err(e)
      case Ok(prefix) =>
        match Encode(v.items[k - 1], env)
        case Err(e) => Err(e)
        case Ok(inner) => Ok(prefix + [Branch(v.items[k - 1].typeName, inner)])
  }

  /** Whether WriteXml writes anything for property p holding v. */
  predicate Written(p: Property, v: Value, opts: XmlOptions) {
    if IsNull(v) then opts.serializeNullValues
    else match v
      case Nested(c) => !IsEmpty(c) || opts.serializeEmptyBusinessObjects
      case RecordList(_, _, items) => items != []
      case StringList(_, strings) => strings != []
      case Str(s) => s.value != "" || opts.serializeEmptyStrings
      case _ => true
  }

  /**
   * A property that is written becomes exactly one element: an empty element
   * named after the property for a null, a text element named after the
   * property for a string, date or decimal, and an element named after the
   * child's type for a nested object. A list becomes one element per item.
   */
  lemma EncodedElements(p: Property, v: Value, opts: XmlOptions, env: XmlEnv)
    ensures var e := EncodeValue(p, v, opts, env);
      e.Ok? ==>
        (!Written(p, v, opts) ==> e.value == []) &&
        (Written(p, v, opts) && IsNull(v) ==> e.value == [Leaf(p.name, "")]) &&
        (Written(p, v, opts) && v.Str? && v.text.Some? ==> e.value == [Leaf(p.name, v.text.value)]) &&
        (Written(p, v, opts) && v.Nested? ==> e.value == [Branch(v.record.typeName, Encode(v.record, env).value)]) &&
        (v.RecordList? ==> |e.value| == |v.items|)
    ensures EncodeValue(p, v, opts, env).Err? ==>
      (v.StringList? && v.strings != []) ||
      (v.Nested? && Encode(v.record, env).Err?) ||
      (v.RecordList? && exists m :: 0 <= m < |v.items| && Encode(v.items[m], env).Err?)
  {
    if v.RecordList? {
      ItemsEncoding(v, |v.items|, env);
    }
  }

  /** WriteXmlList: the items in list order, each named after its type, no wrapper element. */
  lemma {:induction false} ItemsEncoding(v: Value, k: nat, env: XmlEnv)
    requires v.RecordList? && k <= |v.items|
    ensures var e := EncodeItems(v, k, env);
      (e.Ok? ==> |e.value| == k) &&
      (e.Ok? ==> forall m :: 0 <= m < k ==>
        Encode(v.items[m], env).Ok? && e.value[m] == Branch(v.items[m].typeName, Encode(v.items[m], env).value)) &&
      (e.Err? <==> exists m :: 0 <= m < k && Encode(v.items[m], env).Err?)
  {
    if k > 0 {
      ItemsEncoding(v, k - 1, env);
    }
  }

  /** Once a property fails to be written, WriteXml fails with that error. */
  lemma {:induction false} FirstFailureStops(r: Record, k: nat, n: nat, env: XmlEnv)
    requires k <= n <= |r.fields| && EncodeFields(r, k, env).Err?
    ensures EncodeFields(r, n, env) == EncodeFields(r, k, env)
    decreases n - k
  {
    if k < n {
      FirstFailureStops(r, k, n - 1, env);
    }
  }

  /** The same for the items of a list. */
  lemma {:induction false} FirstItemFailureStops(v: Value, k: nat, n: nat, env: XmlEnv)
    requires v.RecordList? && k <= n <= |v.items| && EncodeItems(v, k, env).Err?
    ensures EncodeItems(v, n, env) == EncodeItems(v, k, env)
    decreases n - k
  {
    if k < n {
      FirstItemFailureStops(v, k, n - 1, env);
    }
  }

  /** The elements of the first k properties come first, in property order. */
  lemma {:induction false} EncodedPrefix(r: Record, k: nat, n: nat, env: XmlEnv)
    requires k <= n <= |r.fields| && EncodeFields(r, n, env).Ok?
    ensures EncodeFields(r, k, env).Ok? && EncodeFields(r, k, env).value <= EncodeFields(r, n, env).value
    decreases n - k
  {
    if k < n {
      EncodedPrefix(r, k, n - 1, env);
    }
  }

  /**
   * WriteXml(XmlWriter): appends the elements of r's data properties, in
   * data-property order, to what has been written.
   */
  method WriteXml(r: Record, env: XmlEnv) returns (res: Result<seq<Node>, Failure>)
    ensures res == Encode(r, env)
    decreases r, 3
  {
    var written: seq<Node> := [];
    var k := 0;
    while k < |r.fields|
      invariant k <= |r.fields|
      invariant EncodeFields(r, k, env) == Ok(written)
    {
      var elements := WriteProperty(r.fields[k].prop, r.fields[k].value, r.options, env);
      if elements.Err? {
        FirstFailureStops(r, k + 1, |r.fields|, env);
        return Err(elements.error);
      }
      written := written + elements.value;
      k := k + 1;
    }
    return Ok(written);
  }

  /** The body of WriteXml's loop for one property. */
  method WriteProperty(p: Property, v: Value, opts: XmlOptions, env: XmlEnv) returns (res: Result<seq<Node>, Failure>)
    ensures res == EncodeValue(p, v, opts, env)
    decreases v, 2
  {
    if IsNull(v) && !opts.serializeNullValues {
      return Ok([]);
    }
    if v.Nested? {
      var child := v.record;
      if IsEmpty(child) && !opts.serializeEmptyBusinessObjects {
        return Ok([]);
      }
      var inner := WriteXml(child, env);
      if inner.Err? {
        return Err(inner.error);
      }
      return Ok([Branch(child.typeName, inner.value)]);
    }
    if v.RecordList? || v.StringList? {
      res := WriteXmlList(v, env);
      return;
    }
    if v.Str? && v.text.Some? {
      if v.text.value != "" || opts.serializeEmptyStrings {
        return Ok([Leaf(p.name, v.text.value)]);
      }
      return Ok([]);
    }
    if v.Date? && v.ticks.Some? && opts.dateTimeFormat.Some? && !p.ignoreXmlDateFormat {
      return Ok([Leaf(p.name, env.dateText(v.ticks.value, opts.dateTimeFormat))]);
    }
    if v.Dec? && v.number.Some? && opts.decimalFormat.Some? {
      return Ok([Leaf(p.name, env.decimalText(v.number.value, opts.decimalFormat))]);
    }
    // the generic path: XmlWriter.WriteValue, or an empty element for a null
    if v.Date? && v.ticks.Some? {
      return Ok([Leaf(p.name, env.dateText(v.ticks.value, None))]);
    }
    if v.Dec? && v.number.Some? {
      return Ok([Leaf(p.name, env.decimalText(v.number.value, None))]);
    }
    return Ok([Leaf(p.name, "")]);
  }

  /**
   * WriteXmlList: enumerates the list and writes each item as a business
   * object; an item that is not one (a string) is dereferenced as null.
   */
  method WriteXmlList(v: Value, env: XmlEnv) returns (res: Result<seq<Node>, Failure>)
    requires v.RecordList? || v.StringList?
    ensures res == EncodeValue(Property("", None, false), v, XmlOptions(false, false, false, None, None), env)
    decreases v, 1
  {
    if v.StringList? {
      if v.strings == [] {
        return Ok([]);
      }
      return Err(NullReference);
    }
    var written: seq<Node> := [];
    var k := 0;
    while k < |v.items|
      invariant k <= |v.items|
      invariant EncodeItems(v, k, env) == Ok(written)
    {
      var bo := v.items[k];
      var inner := WriteXml(bo, env);
      if inner.Err? {
        FirstItemFailureStops(v, k + 1, |v.items|, env);
        return Err(inner.error);
      }
      written := written + [Branch(bo.typeName, inner.value)];
      k := k + 1;
    }
    return Ok(written);
  }

  // ----- ReadXml -----

  /** The same type, options and data properties; only the values may differ. */
  predicate SameLayout(a: Record, b: Record) {
    a.typeName == b.typeName && a.options == b.options && |a.fields| == |b.fields| &&
    forall k :: 0 <= k < |a.fields| ==> a.fields[k].prop == b.fields[k].prop
  }

  /**
   * ReadXml(XmlReader) on `node`: ReadStartElement, read the child
   * elements into `target`, ReadEndElement. Text content where the end
   * element is expected makes ReadEndElement throw.
   */
  function ReadRecord(target: Record, node: Node, env: XmlEnv): (res: Result<Record, Failure>)
    ensures res.Ok? ==> SameLayout(res.value, target)
    decreases node, 2
  {
    match node
    case Leaf(_, text) => if text == "" then Ok(target) else Err(UnexpectedText)
    case Branch(_, _) => ReadChildren(target, node, 0, env)
  }

  /** The loop of ReadXml from the i-th child element of `parent` on. */
  function ReadChildren(target: Record, parent: Node, i: nat, env: XmlEnv): (res: Result<Record, Failure>)
    requires parent.Branch? && i <= |parent.children|
    ensures res.Ok? ==> SameLayout(res.value, target)
    decreases parent, 1, |parent.children| - i, 1
  {
    if i == |parent.children| then Ok(target)
    else match ReadElement(target, parent, i, env)
      case Err(e) => Err(e)
      case Ok(next) => ReadChildren(next.0, parent, next.1, env)
  }

  /**
   * One turn of ReadXml's loop, on the i-th child element: an element no
   * data property is named after is skipped; a nested object reads the
   * element itself; a list reads a run of elements; any other property is
   * set to the element's converted content. The result is the updated
   * target and the position of the next element.
   */
  function ReadElement(target: Record, parent: Node, i: nat, env: XmlEnv): (res: Result<(Record, nat), Failure>)
    requires parent.Branch? && i < |parent.children|
    ensures res.Ok? ==> SameLayout(res.value.0, target) && i < res.value.1 <= |parent.children|
    decreases parent, 1, |parent.children| - i, 0
  {
    var node := parent.children[i];
    match FindField(target.fields, node.name)
    case None => Ok((target, i + 1))
    case Some(k) =>
      var value := target.fields[k].value;
      if value.Nested? then
        match ReadRecord(value.record, node, env)
        case Err(e) => Err(e)
        case Ok(c) => Ok((SetField(target, k, Nested(c)), i + 1))
      else if value.RecordList? || value.StringList? then
        match ReadList(value, target.fields[k].prop.name, parent, i, env)
        case Err(e) => Err(e)
        case Ok(read) =>
          // a list that consumed nothing leaves the reader where it was: the loop never ends
          if read.1 == i then Err(NoProgress)
          else Ok((SetField(target, k, read.0), read.1))
      else
        match ReadScalar(value, node, env)
        case Err(e) => Err(e)
        case Ok(v) => Ok((SetField(target, k, v), i + 1))
  }

  /**
   * ReadXmlList from the i-th child element: a list of strings returns at
   * once; a list of business objects is cleared and refilled by ReadItems.
   * The result is the new list and the position of the first element not
   * consumed.
   */
  function ReadList(list: Value, fieldName: string, parent: Node, i: nat, env: XmlEnv): (res: Result<(Value, nat), Failure>)
    requires list.RecordList? || list.StringList?
    requires parent.Branch? && i <= |parent.children|
    ensures res.Ok? ==> i <= res.value.1 <= |parent.children|
    decreases parent, 0, |parent.children| - i, 1
  {
    if list.StringList? then Ok((list, i))
    else match ReadItems(list.itemType, fieldName, parent, i, [], env)
      case Err(e) => Err(e)
      case Ok(read) => Ok((RecordList(list.instance, list.itemType, read.0), read.1))
  }

  /**
   * ReadXmlList's loop: while the current element is named `fieldName`, a
   * fresh instance of the item type reads it and is added to `acc`.
   */
  function ReadItems(itemType: string, fieldName: string, parent: Node, j: nat, acc: seq<Record>, env: XmlEnv)
    : (res: Result<(seq<Record>, nat), Failure>)
    requires parent.Branch? && j <= |parent.children|
    ensures res.Ok? ==> j <= res.value.1 <= |parent.children|
    ensures res.Ok? && j < |parent.children| && parent.children[j].name == fieldName ==> j < res.value.1
    decreases parent, 0, |parent.children| - j, 0
  {
    if j == |parent.children| || parent.children[j].name != fieldName then Ok((acc, j))
    else match ReadRecord(env.createInstance(itemType), parent.children[j], env)
      case Err(e) => Err(e)
      case Ok(item) => ReadItems(itemType, fieldName, parent, j + 1, acc + [item], env)
  }

  /** ReadElementContentAs: the text of an element without child elements. */
  function ElementContent(node: Node): (res: Result<string, Failure>)
    ensures res.Ok? <==> node.Leaf? || node.children == []
    ensures node.Leaf? ==> res == Ok(node.text)
  {
    match node
    case Leaf(_, text) => Ok(text)
    case Branch(_, kids) => if kids == [] then Ok("") else Err(ElementHasChildren)
  }

  /**
   * The value ReadXml assigns to a string, decimal? or DateTime? property:
   * the element's content converted to the property's type. Only DateTime?
   * is replaced by its underlying type before the conversion; a decimal?
   * reaches ReadElementContentAs as Nullable<decimal>, which it cannot
   * convert to.
   */
  function ReadScalar(current: Value, node: Node, env: XmlEnv): (res: Result<Value, Failure>)
    requires current.Str? || current.Dec? || current.Date?
    ensures res.Ok? ==> !IsNull(res.value)
    ensures res.Ok? ==> (current.Str? <==> res.value.Str?) && (current.Date? <==> res.value.Date?)
    ensures node.Leaf? && current.Str? ==> res == Ok(Str(Some(node.text)))
    ensures node.Branch? && node.children != [] ==> res == Err(ElementHasChildren)
  {
    match ElementContent(node)
    case Err(e) => Err(e)
    case Ok(text) =>
      match current
      case Str(_) => Ok(Str(Some(text)))
      case Dec(_) => Err(NullableUnsupported)
      case Date(_) =>
        (match env.parseDate(text)
          case None => Err(Unparsable)
          case Some(t) => Ok(Date(Some(t))))
  }

  /** No element content is ever read into a decimal? property. */
  lemma DecimalNeverRead(current: Value, node: Node, env: XmlEnv)
    requires current.Dec?
    ensures ReadScalar(current, node, env).Err?
    ensures ElementContent(node).Ok? ==> ReadScalar(current, node, env) == Err(NullableUnsupported)
  {
  }

  /**
   * The reader as evidently intended: decimal? is read as decimal, as
   * DateTime? is read as DateTime.
   */
  function ReadScalarIntended(current: Value, node: Node, env: XmlEnv): (res: Result<Value, Failure>)
    requires current.Str? || current.Dec? || current.Date?
    ensures res.Ok? ==> !IsNull(res.value)
    ensures res.Ok? ==> (current.Str? <==> res.value.Str?) && (current.Dec? <==> res.value.Dec?) && (current.Date? <==> res.value.Date?)
    ensures !current.Dec? ==> res == ReadScalar(current, node, env)
  {
    match current
    case Dec(_) =>
      (match ElementContent(node)
        case Err(e) => Err(e)
        case Ok(text) =>
          match env.parseDecimal(text)
          case None => Err(Unparsable)
          case Some(d) => Ok(Dec(Some(d))))
    case _ => ReadScalar(current, node, env)
  }

  /** With the intended reader, a decimal written by WriteXml reads back when its text parses to it. */
  lemma DecimalReadsBackIntended(p: Property, current: Value, d: real, opts: XmlOptions, env: XmlEnv)
    requires current.Dec? && env.parseDecimal(env.decimalText(d, opts.decimalFormat)) == Some(d)
    ensures EncodeValue(p, Dec(Some(d)), opts, env).Ok? && |EncodeValue(p, Dec(Some(d)), opts, env).value| == 1
    ensures ReadScalarIntended(current, EncodeValue(p, Dec(Some(d)), opts, env).value[0], env) == Ok(Dec(Some(d)))
  {
  }

  /**
   * ReadXml(XmlReader): reads `node` into `target`, advancing a cursor over
   * the child elements and setting the properties they name.
   */
  method ReadXml(target: Record, node: Node, env: XmlEnv) returns (res: Result<Record, Failure>)
    ensures res == ReadRecord(target, node, env)
    decreases node, 1
  {
    if node.Leaf? {
      if node.text == "" {
        return Ok(target);
      }
      return Err(UnexpectedText);
    }
    var current := target;
    var i := 0;
    while i < |node.children|
      invariant i <= |node.children|
      invariant ReadChildren(current, node, i, env) == ReadRecord(target, node, env)
      decreases |node.children| - i
    {
      var element := node.children[i];
      var found := FindField(current.fields, element.name);
      if found.None? {
        // Skip
        i := i + 1;
        continue;
      }
      var k := found.value;
      var value := current.fields[k].value;
      if value.Nested? {
        var child := ReadXml(value.record, element, env);
        if child.Err? {
          return Err(child.error);
        }
        current := SetField(current, k, Nested(child.value));
        i := i + 1;
      } else if value.RecordList? || value.StringList? {
        var read := ReadXmlList(value, current.fields[k].prop.name, node, i, env);
        if read.Err? {
          return Err(read.error);
        }
        if read.value.1 == i {
          return Err(NoProgress);
        }
        current := SetField(current, k, read.value.0);
        i := read.value.1;
      } else {
        var scalar := ReadScalar(value, element, env);
        if scalar.Err? {
          return Err(scalar.error);
        }
        current := SetField(current, k, scalar.value);
        i := i + 1;
      }
    }
    return Ok(current);
  }

  /**
   * ReadXmlList: returns at once for a list that does not hold business
   * objects; otherwise clears the list and adds one fresh item per
   * consecutive element named `fieldName`.
   */
  method ReadXmlList(list: Value, fieldName: string, parent: Node, i: nat, env: XmlEnv)
    returns (res: Result<(Value, nat), Failure>)
    requires list.RecordList? || list.StringList?
    requires parent.Branch? && i <= |parent.children|
    ensures res == ReadList(list, fieldName, parent, i, env)
    decreases parent, 0
  {
    if list.StringList? {
      return Ok((list, i));
    }
    var items: seq<Record> := [];
    var j := i;
    while j < |parent.children| && parent.children[j].name == fieldName
      invariant i <= j <= |parent.children|
      invariant ReadItems(list.itemType, fieldName, parent, j, items, env) == ReadItems(list.itemType, fieldName, parent, i, [], env)
      decreases |parent.children| - j
    {
      var bo := ReadXml(env.createInstance(list.itemType), parent.children[j], env);
      if bo.Err? {
        return Err(bo.error);
      }
      items := items + [bo.value];
      j := j + 1;
    }
    return Ok((RecordList(list.instance, list.itemType, items), j));
  }

  // ----- what ReadXml promises -----

  /**
   * ReadXmlList keeps what it has read so far and adds one item per
   * consecutive element named `fieldName`, each read into a fresh instance
   * of the item type, stopping at the first element named otherwise.
   */
  lemma {:induction false} ItemsRead(itemType: string, fieldName: string, parent: Node, j: nat, acc: seq<Record>, env: XmlEnv)
    requires parent.Branch? && j <= |parent.children|
    ensures var res := ReadItems(itemType, fieldName, parent, j, acc, env);
      res.Ok? ==>
        |res.value.0| == |acc| + (res.value.1 - j) && res.value.0[..|acc|] == acc &&
        (res.value.1 == |parent.children| || parent.children[res.value.1].name != fieldName) &&
        forall m :: j <= m < res.value.1 ==>
          parent.children[m].name == fieldName &&
          ReadRecord(env.createInstance(itemType), parent.children[m], env) == Ok(res.value.0[|acc| + m - j])
    decreases |parent.children| - j
  {
    if j < |parent.children| && parent.children[j].name == fieldName {
      var first := ReadRecord(env.createInstance(itemType), parent.children[j], env);
      if first.Ok? {
        ItemsRead(itemType, fieldName, parent, j + 1, acc + [first.value], env);
        var res := ReadItems(itemType, fieldName, parent, j + 1, acc + [first.value], env);
        if res.Ok? {
          assert res.value.0[..|acc| + 1] == acc + [first.value];
          assert res.value.0[..|acc|] == (res.value.0[..|acc| + 1])[..|acc|];
        }
      }
    }
  }

  /** Elements that name no data property are skipped: the target is left as it was. */
  lemma {:induction false} UnknownElementsSkipped(target: Record, parent: Node, i: nat, env: XmlEnv)
    requires parent.Branch? && i <= |parent.children|
    requires forall j :: i <= j < |parent.children| ==> FindField(target.fields, parent.children[j].name).None?
    ensures ReadChildren(target, parent, i, env) == Ok(target)
    decreases |parent.children| - i
  {
    if i < |parent.children| {
      UnknownElementsSkipped(target, parent, i + 1, env);
    }
  }

  /** A data property that no remaining element is named after keeps its value. */
  lemma {:induction false} UnnamedPropertyKept(target: Record, parent: Node, i: nat, k: nat, env: XmlEnv)
    requires parent.Branch? && i <= |parent.children| && k < |target.fields|
    requires forall j :: i <= j < |parent.children| ==> parent.children[j].name != target.fields[k].prop.name
    ensures var res := ReadChildren(target, parent, i, env);
      res.Ok? ==> res.value.fields[k] == target.fields[k]
    decreases |parent.children| - i
  {
    if i < |parent.children| {
      var next := ReadElement(target, parent, i, env);
      if next.Ok? {
        ElementKeepsOthers(target, parent, i, k, env);
        UnnamedPropertyKept(next.value.0, parent, next.value.1, k, env);
      }
    }
  }

  /** One turn of the loop changes at most the property the element is named after. */
  lemma ElementKeepsOthers(target: Record, parent: Node, i: nat, k: nat, env: XmlEnv)
    requires parent.Branch? && i < |parent.children| && k < |target.fields|
    requires parent.children[i].name != target.fields[k].prop.name
    ensures var res := ReadElement(target, parent, i, env);
      res.Ok? ==> res.value.0.fields[k] == target.fields[k]
  {
  }

  // ----- round trip -----

  /**
   * Encoding r and reading the result into f gives back r's data: f is an
   * object of r's type, property names are unique, and every property
   * round-trips.
   */
  predicate Reproducible(r: Record, f: Record, env: XmlEnv)
    decreases r, 1
  {
    f.typeName == r.typeName && |f.fields| == |r.fields| && UniqueNames(r.fields) &&
    forall k :: 0 <= k < |r.fields| ==>
      f.fields[k].prop == r.fields[k].prop &&
      RoundTrips(r.fields[k].prop, r.fields[k].value, f.fields[k].value, r.options, env)
  }

  /**
   * Property p holding v in the original, and fv in the target, ends up
   * with v's data: a property that is not written must already hold it;
   * a written one must be a non-null string or date whose text parses
   * back to it, or a nested object whose type name is the property name
   * (the writer names the element after the type, the reader looks the
   * property up by the element's name). A written null, decimal? or list
   * never round-trips. A string must be KeptText, and a nested object must
   * write at least one element of its own: an object that writes none is
   * a self-closing element, whose missing end tag makes the nested reader
   * run on into the parent's elements.
   */
  predicate RoundTrips(p: Property, v: Value, fv: Value, opts: XmlOptions, env: XmlEnv)
    decreases v, 0
  {
    if !Written(p, v, opts) then SameValue(fv, v)
    else match v
      case Str(s) => s.Some? && KeptText(s.value) && fv.Str?
      case Dec(_) => false
      case Date(t) => t.Some? && fv.Date? && env.parseDate(env.dateText(t.value, DateFormatFor(p, opts))) == t
      case Nested(c) => c.typeName == p.name && fv.Nested? && Reproducible(c, fv.record, env) && WritesElement(c)
      case RecordList(_, _, _) => false
      case StringList(_, _) => false
  }

  /** A character XML 1.0 allows in text: tab, line feed, carriage return, and everything from space on but U+FFFE and U+FFFF. */
  predicate XmlChar(c: char) {
    c == '\t' || c == '\n' || c == '\r' || (c >= ' ' && c != '\U{FFFE}' && c != '\U{FFFF}')
  }

  /**
   * Text that the XmlWriter writes and the XmlReader gives back unchanged:
   * only characters XML allows (the writer throws on others), no carriage
   * return (written "\r\n" and "\r" come back as "\n"), and not white
   * space alone (a reader that ignores white space gives it back as "").
   */
  predicate KeptText(s: string) {
    (forall i :: 0 <= i < |s| ==> XmlChar(s[i]) && s[i] != '\r') && (s == [] || !Blank(s))
  }

  /** Some data property of r is written, so r's element has content and an end tag. */
  predicate WritesElement(r: Record) {
    WrittenBefore(r, |r.fields|)
  }

  /** One of the first k data properties of r is written. */
  predicate WrittenBefore(r: Record, k: nat)
    requires k <= |r.fields|
  {
    exists j :: 0 <= j < k && Written(r.fields[j].prop, r.fields[j].value, r.options)
  }

  /** An object that round-trips writes at least one element exactly when some property is written. */
  lemma WritesElementIff(r: Record, f: Record, env: XmlEnv)
    requires Reproducible(r, f, env)
    ensures Encode(r, env).Ok? && (Encode(r, env).value != [] <==> WritesElement(r))
  {
    ReproducibleEncodes(r, f, env);
    WrittenElementsFrom(r, f, |r.fields|, env);
  }

  lemma {:induction false} WrittenElementsFrom(r: Record, f: Record, k: nat, env: XmlEnv)
    requires Reproducible(r, f, env) && Encode(r, env).Ok? && k <= |r.fields|
    ensures EncodeFields(r, k, env).Ok?
    ensures EncodeFields(r, k, env).value != [] <==> WrittenBefore(r, k)
  {
    if k > 0 {
      WrittenElementsFrom(r, f, k - 1, env);
      var pre, e := PropertyElements(r, f, k - 1, env);
      WrittenBeforeStep(r, k);
      AppendedElements(pre, e, Written(r.fields[k - 1].prop, r.fields[k - 1].value, r.options));
    }
  }

  /** Appending one element or none: the result has elements exactly when the prefix had or one was appended. */
  lemma AppendedElements(pre: seq<Node>, e: seq<Node>, written: bool)
    requires written ==> |e| == 1
    requires !written ==> e == []
    ensures pre + e != [] <==> pre != [] || written
  {
    if !written {
      assert pre + e == pre;
    }
  }

  lemma WrittenBeforeStep(r: Record, k: nat)
    requires 0 < k <= |r.fields|
    ensures WrittenBefore(r, k) <==>
      WrittenBefore(r, k - 1) || Written(r.fields[k - 1].prop, r.fields[k - 1].value, r.options)
  {
    if WrittenBefore(r, k) {
      var j :| 0 <= j < k && Written(r.fields[j].prop, r.fields[j].value, r.options);
      if j < k - 1 {
        assert WrittenBefore(r, k - 1);
      }
    }
  }

  /** Writing never fails on an object that round-trips. */
  lemma {:induction false} ReproducibleEncodes(r: Record, f: Record, env: XmlEnv)
    requires Reproducible(r, f, env)
    ensures Encode(r, env).Ok?
    decreases r, 1
  {
    EncodesFrom(r, f, |r.fields|, env);
  }

  lemma {:induction false} EncodesFrom(r: Record, f: Record, k: nat, env: XmlEnv)
    requires Reproducible(r, f, env) && k <= |r.fields|
    ensures EncodeFields(r, k, env).Ok?
    decreases r, 0, k
  {
    if k > 0 {
      EncodesFrom(r, f, k - 1, env);
      var p, v := r.fields[k - 1].prop, r.fields[k - 1].value;
      assert RoundTrips(p, v, f.fields[k - 1].value, r.options, env);
      if v.Nested? && Written(p, v, r.options) {
        ReproducibleEncodes(v.record, f.fields[k - 1].value.record, env);
      }
      EncodedElements(p, v, r.options, env);
    }
  }

  /**
   * The round trip: encoding r under any element name and reading it into
   * f succeeds and gives an object with r's data. r must write some
   * element, or its own element is self-closing and ReadEndElement throws.
   */
  lemma {:induction false} RoundTrip(r: Record, f: Record, name: string, env: XmlEnv)
    requires Reproducible(r, f, env) && WritesElement(r)
    ensures Encode(r, env).Ok? && Encode(r, env).value != []
    ensures var g := ReadRecord(f, Branch(name, Encode(r, env).value), env);
      g.Ok? && SameData(g.value, r)
    decreases r, 2
  {
    WritesElementIff(r, f, env);
    ReadFieldsFrom(r, f, f, Branch(name, Encode(r, env).value), 0, env);
  }

  /** The object read back is Equals to the original, and the original to it. */
  lemma RoundTripEquals(r: Record, f: Record, name: string, env: XmlEnv)
    requires Reproducible(r, f, env) && WritesElement(r) && WellFormed(r)
    ensures Encode(r, env).Ok?
    ensures var g := ReadRecord(f, Branch(name, Encode(r, env).value), env);
      g.Ok? && EqualsObject(g.value, Some(r)) == Ok(true) && EqualsObject(r, Some(g.value)) == Ok(true)
  {
    RoundTrip(r, f, name, env);
    var g := ReadRecord(f, Branch(name, Encode(r, env).value), env).value;
    SameDataWellFormed(g, r);
    SameDataEquals(g, r);
    SameDataSymmetric(g, r);
    SameDataEquals(r, g);
  }

  /**
   * The target s while ReadXml reads r's elements: r's type and properties,
   * r's data in the properties before k, f's values from k on.
   */
  ghost predicate ReadSoFar(r: Record, f: Record, s: Record, k: nat)
  {
    k <= |r.fields| && s.typeName == r.typeName && |s.fields| == |r.fields| && |f.fields| == |r.fields| &&
    (forall j :: 0 <= j < |r.fields| ==> s.fields[j].prop == r.fields[j].prop) &&
    (forall j :: 0 <= j < k ==> SameValue(s.fields[j].value, r.fields[j].value)) &&
    (forall j :: k <= j < |r.fields| ==> s.fields[j].value == f.fields[j].value)
  }

  /** Reading the children of parent from i on into s succeeds with r's data. */
  ghost predicate ReadsBack(s: Record, parent: Node, i: nat, r: Record, env: XmlEnv)
    requires parent.Branch? && i <= |parent.children|
  {
    var g := ReadChildren(s, parent, i, env);
    g.Ok? && SameData(g.value, r)
  }

  /** ReadXml's loop from the elements of property k on. */
  lemma {:induction false} ReadFieldsFrom(r: Record, f: Record, s: Record, parent: Node, k: nat, env: XmlEnv)
    requires Reproducible(r, f, env)
    requires parent.Branch? && Encode(r, env) == Ok(parent.children)
    requires ReadSoFar(r, f, s, k)
    ensures EncodeFields(r, k, env).Ok? && |EncodeFields(r, k, env).value| <= |parent.children|
    ensures ReadsBack(s, parent, |EncodeFields(r, k, env).value|, r, env)
    decreases r, 1, |r.fields| - k, 1
  {
    if k < |r.fields| {
      ReadFieldsNext(r, f, s, parent, k, env);
    } else {
      ReadFieldsDone(r, f, s, parent, env);
    }
  }

  /** The loop reads property k's elements, then goes on from property k + 1. */
  lemma {:induction false} ReadFieldsNext(r: Record, f: Record, s: Record, parent: Node, k: nat, env: XmlEnv)
    requires Reproducible(r, f, env)
    requires parent.Branch? && Encode(r, env) == Ok(parent.children)
    requires k < |r.fields| && ReadSoFar(r, f, s, k)
    ensures EncodeFields(r, k, env).Ok? && |EncodeFields(r, k, env).value| <= |parent.children|
    ensures ReadsBack(s, parent, |EncodeFields(r, k, env).value|, r, env)
    decreases r, 1, |r.fields| - k, 0
  {
    var s' := PropertyStep(r, f, s, parent, k, env);
    ReadFieldsFrom(r, f, s', parent, k + 1, env);
    ReadsBackStep(s, s', parent, |EncodeFields(r, k, env).value|, |EncodeFields(r, k + 1, env).value|, r, env);
  }

  /** Two positions from which the loop reads the same result read back the same data. */
  lemma ReadsBackStep(s: Record, s': Record, parent: Node, i: nat, i': nat, r: Record, env: XmlEnv)
    requires parent.Branch? && i <= |parent.children| && i' <= |parent.children|
    requires ReadChildren(s, parent, i, env) == ReadChildren(s', parent, i', env)
    requires ReadsBack(s', parent, i', r, env)
    ensures ReadsBack(s, parent, i, r, env)
  {
  }

  /** Past the last element the loop stops, and the target then holds r's data in every property. */
  lemma ReadFieldsDone(r: Record, f: Record, s: Record, parent: Node, env: XmlEnv)
    requires parent.Branch? && EncodeFields(r, |r.fields|, env) == Ok(parent.children)
    requires ReadSoFar(r, f, s, |r.fields|)
    ensures ReadsBack(s, parent, |EncodeFields(r, |r.fields|, env).value|, r, env)
  {
    assert ReadChildren(s, parent, |parent.children|, env) == Ok(s);
  }

  /**
   * One property of ReadFieldsFrom: reading its elements, if any, gives
   * it r's data, leaves the other properties alone and moves the cursor
   * past them.
   */
  lemma {:induction false} PropertyStep(r: Record, f: Record, s: Record, parent: Node, k: nat, env: XmlEnv)
      returns (s': Record)
    requires Reproducible(r, f, env)
    requires parent.Branch? && Encode(r, env) == Ok(parent.children)
    requires k < |r.fields| && ReadSoFar(r, f, s, k)
    ensures ReadSoFar(r, f, s', k + 1)
    ensures EncodeFields(r, k, env).Ok? && EncodeFields(r, k + 1, env).Ok?
    ensures |EncodeFields(r, k, env).value| <= |EncodeFields(r, k + 1, env).value| <= |parent.children|
    ensures ReadChildren(s, parent, |EncodeFields(r, k, env).value|, env)
      == ReadChildren(s', parent, |EncodeFields(r, k + 1, env).value|, env)
    decreases r, 0, 2
  {
    var pre, e := PropertyElements(r, f, k, env);
    var i := |pre|;
    assert |EncodeFields(r, k, env).value| == i;
    if !Written(r.fields[k].prop, r.fields[k].value, r.options) {
      assert pre + e == pre;
      assert |EncodeFields(r, k + 1, env).value| == i;
      assert RoundTrips(r.fields[k].prop, r.fields[k].value, f.fields[k].value, r.options, env);
      ReadSoFarNext(r, f, s, k, s.fields[k].value);
      assert SetField(s, k, s.fields[k].value) == s;
      s' := s;
    } else {
      assert |EncodeFields(r, k + 1, env).value| == i + 1;
      assert parent.children[i] == (pre + e)[i] == e[0];
      s' := WrittenPropertyStep(r, f, s, parent, i, k, env);
    }
  }

  /** The element at i, written for property k, gives the target k's data, and the loop goes on at i + 1. */
  lemma WrittenPropertyStep(r: Record, f: Record, s: Record, parent: Node, i: nat, k: nat, env: XmlEnv)
      returns (s': Record)
    requires Reproducible(r, f, env) && k < |r.fields| && ReadSoFar(r, f, s, k)
    requires Written(r.fields[k].prop, r.fields[k].value, r.options)
    requires parent.Branch? && i < |parent.children|
    requires EncodeValue(r.fields[k].prop, r.fields[k].value, r.options, env) == Ok([parent.children[i]])
    ensures ReadSoFar(r, f, s', k + 1)
    ensures ReadChildren(s, parent, i, env) == ReadChildren(s', parent, i + 1, env)
    decreases r, 0, 1
  {
    FoundAt(r, s, k);
    var w := WrittenPropertyRead(r, f, s, parent, i, k, env);
    s' := SetField(s, k, w);
    ReadSoFarNext(r, f, s, k, w);
  }

  /** Giving property k r's data moves the target on to property k + 1. */
  lemma ReadSoFarNext(r: Record, f: Record, s: Record, k: nat, w: Value)
    requires k < |r.fields| && ReadSoFar(r, f, s, k) && SameValue(w, r.fields[k].value)
    ensures ReadSoFar(r, f, SetField(s, k, w), k + 1)
  {
  }

  /** The elements property k contributes to the encoding of r: none, or exactly one. */
  lemma PropertyElements(r: Record, f: Record, k: nat, env: XmlEnv) returns (pre: seq<Node>, e: seq<Node>)
    requires Reproducible(r, f, env) && k < |r.fields| && Encode(r, env).Ok?
    ensures EncodeFields(r, k, env) == Ok(pre) && EncodeFields(r, k + 1, env) == Ok(pre + e)
    ensures pre + e <= Encode(r, env).value
    ensures EncodeValue(r.fields[k].prop, r.fields[k].value, r.options, env) == Ok(e)
    ensures !Written(r.fields[k].prop, r.fields[k].value, r.options) ==> e == []
    ensures Written(r.fields[k].prop, r.fields[k].value, r.options) ==> |e| == 1
  {
    EncodedPrefix(r, k, |r.fields|, env);
    EncodedPrefix(r, k + 1, |r.fields|, env);
    pre := EncodeFields(r, k, env).value;
    var p, v := r.fields[k].prop, r.fields[k].value;
    e := EncodeValue(p, v, r.options, env).value;
    EncodedElements(p, v, r.options, env);
    assert RoundTrips(p, v, f.fields[k].value, r.options, env);
  }

  /** The element written for property k is read back into it with k's data, and the loop moves on. */
  lemma {:induction false} WrittenPropertyRead(r: Record, f: Record, s: Record, parent: Node, i: nat, k: nat, env: XmlEnv)
      returns (w: Value)
    requires Reproducible(r, f, env) && k < |r.fields| && |s.fields| == |r.fields|
    requires Written(r.fields[k].prop, r.fields[k].value, r.options)
    requires parent.Branch? && i < |parent.children|
    requires EncodeValue(r.fields[k].prop, r.fields[k].value, r.options, env) == Ok([parent.children[i]])
    requires FindField(s.fields, parent.children[i].name) == Some(k)
    requires s.fields[k].value == f.fields[k].value
    ensures SameValue(w, r.fields[k].value)
    ensures ReadElement(s, parent, i, env) == Ok((SetField(s, k, w), i + 1))
    decreases r, 0, 0
  {
    var p, v, fv := r.fields[k].prop, r.fields[k].value, f.fields[k].value;
    assert RoundTrips(p, v, fv, r.options, env);
    var node := parent.children[i];
    if v.Nested? {
      var c := v.record;
      RoundTrip(c, fv.record, c.typeName, env);
      assert node == Branch(c.typeName, Encode(c, env).value);
      w := Nested(ReadRecord(fv.record, node, env).value);
    } else {
      w := v;
      assert ReadScalar(fv, node, env) == Ok(v);
    }
  }

  /**
   * With SerializeNullValues set, a null string is written as an empty
   * element and read back as "": the object read back is not Equals to
   * the original.
   */
  lemma NullStringReadsBackEmpty(name: string, opts: XmlOptions, env: XmlEnv)
    requires opts.serializeNullValues
    ensures var p := Property(name, None, false);
      var r := Record("T", opts, [Slot(p, Str(None))]);
      var g := Record("T", opts, [Slot(p, Str(Some("")))]);
      Encode(r, env) == Ok([Leaf(name, "")]) &&
      ReadRecord(r, Branch("root", [Leaf(name, "")]), env) == Ok(g) &&
      EqualsObject(g, Some(r)) == Ok(false)
  {
    var p := Property(name, None, false);
    var r := Record("T", opts, [Slot(p, Str(None))]);
    var g := Record("T", opts, [Slot(p, Str(Some("")))]);
    assert EncodeValue(p, Str(None), opts, env) == Ok([Leaf(name, "")]);
    assert EncodeFields(r, 0, env) == Ok([]);
    assert EncodeValue(r.fields[0].prop, r.fields[0].value, r.options, env) == Ok([Leaf(name, "")]);
    assert [] + [Leaf(name, "")] == [Leaf(name, "")];
    assert EncodeFields(r, 1, env) == Ok([Leaf(name, "")]);
    assert FindField(r.fields, name) == Some(0);
    assert SetField(r, 0, Str(Some(""))) == g;
    assert ReadElement(r, Branch("root", [Leaf(name, "")]), 0, env) == Ok((g, 1));
    assert ReadChildren(r, Branch("root", [Leaf(name, "")]), 0, env) == Ok(g);
    assert FindField(r.fields, name) == Some(0);
    assert SlotEquals(g, 0, r.fields[0].value) == Ok(false);
    assert FieldsEqualFrom(g, r, 0) == Ok(false);
  }
}
