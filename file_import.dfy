/**
 * Loading a JSON file of purchases: the value `JSON.parse` produced is mapped
 * element by element onto records of exactly nine fields, with the same
 * coercions a submit applies.
 */
module FileImport {
  import opened Wrappers
  import opened Numbers
  import opened Records

  /** A JSON value as `JSON.parse` returns it. */
  datatype Json =
    | JNull
    | JBool(b: bool)
    | JNumber(n: real)
    | JString(s: string)
    | JArray(items: seq<Json>)
    | JObject(fields: map<string, Json>)

  /** What reading the file gave: a parsed value, or the SyntaxError `JSON.parse` throws. */
  datatype ParseResult = SyntaxError | Parsed(value: Json)

  /** Why an import threw before the list was replaced. */
  datatype ImportError =
    | NotJson       // JSON.parse threw
    | NotAnArray    // the parsed value has no `map` method
    | NullElement   // reading a field of a null element threw
    | NotText       // parseFloat could not convert a quantity or price to text

  /** JavaScript truthiness. */
  predicate JsTruthy(v: Json) {
    match v
    case JNull => false
    case JBool(b) => b
    case JNumber(n) => n != 0.0
    case JString(s) => s != ""
    case JArray(_) => true
    case JObject(_) => true
  }

  /**
   * `String(v)` where `ToStringThrows(v)` is false: the text JavaScript
   * converts a value to. Where it is true, `String(v)` throws instead.
   */
  function JsString(v: Json): string {
    match v
    case JNull => "null"
    case JBool(b) => if b then "true" else "false"
    case JNumber(n) => NumberToString(n)
    case JString(s) => s
    case JArray(items) => JoinElements(items)
    case JObject(_) => "[object Object]"
  }

  /** `items.join(",")`, where null elements give "". */
  function JoinElements(items: seq<Json>): string {
    if items == [] then ""
    else
      var first := if items[0] == JNull then "" else JsString(items[0]);
      if |items| == 1 then first else first + "," + JoinElements(items[1..])
  }

  /** The JSON key of each record field. */
  function Key(f: Field): string {
    match f
    case Date => "date"
    case ProductCode => "productCode"
    case ProductName => "productName"
    case Spec => "spec"
    case Unit => "unit"
    case Quantity => "quantity"
    case Price => "price"
    case Supplier => "supplier"
    case Note => "note"
  }

  lemma KeysDistinct()
    ensures forall f: Field, g: Field :: f != g ==> Key(f) != Key(g)
  {
    forall f: Field, g: Field | f != g ensures Key(f) != Key(g) {
      match f
      case Date => assert Key(f)[0] == 'd';
      case _ =>
    }
  }

  /** `item[key]`; None is `undefined`. Only objects hold these keys. */
  function Property(item: Json, key: string): Option<Json> {
    match item
    case JObject(m) => if key in m then Some(m[key]) else None
    case _ => None
  }

  /** `x || ''` for a text field. */
  function TextOr(x: Option<Json>): (s: string)
    ensures x.None? || !JsTruthy(x.value) ==> s == ""
    ensures x.Some? && x.value.JString? ==> s == x.value.s
  {
    match x
    case None => ""
    case Some(v) => if !JsTruthy(v) then "" else JsString(v)
  }

  /**
   * Whether `String(v)` throws. A parsed object with its own "toString" key
   * hides the callable one, and `valueOf` gives back the object itself, so the
   * conversion finds no primitive and throws a TypeError. An array converts
   * through `join`, which converts each of its elements.
   */
  predicate ToStringThrows(v: Json) {
    match v
    case JObject(m) => "toString" in m
    case JArray(items) => exists i :: 0 <= i < |items| && ToStringThrows(items[i])
    case _ => false
  }

  /** `parseFloat(x)` throws while converting its argument to text. */
  predicate NumberThrows(x: Option<Json>) {
    x.Some? && ToStringThrows(x.value)
  }

  /**
   * The error reading an element throws, if any: a null element throws at its
   * first property read, and otherwise the quantity or the price may throw in
   * `parseFloat`. Text fields only test truthiness, which never throws.
   */
  function ItemError(item: Json): Option<ImportError> {
    if item == JNull then Some(NullElement)
    else if NumberThrows(Property(item, Key(Quantity))) || NumberThrows(Property(item, Key(Price))) then Some(NotText)
    else None
  }

  /** The error of the first element that throws; `map` stops there. */
  function FirstItemError(items: seq<Json>): (e: Option<ImportError>)
    ensures e.None? <==> forall i :: 0 <= i < |items| ==> ItemError(items[i]).None?
    ensures e.Some? ==>
              exists k :: 0 <= k < |items| && ItemError(items[k]) == e &&
                          (forall j :: 0 <= j < k ==> ItemError(items[j]).None?)
  {
    if items == [] then None
    else if ItemError(items[0]).Some? then ItemError(items[0])
    else
      var e := FirstItemError(items[1..]);
      assert e.Some? ==> exists k :: 1 <= k < |items| && ItemError(items[k]) == e &&
                           (forall j :: 0 <= j < k ==> ItemError(items[j]).None?);
      e
  }

  /** `parseFloat(x) || 0`: parseFloat first converts its argument to text. */
  function NumberOr(x: Option<Json>): real
    requires !NumberThrows(x)
  {
    match x
    case None => ParseOrZero("undefined")
    case Some(v) => ParseOrZero(JsString(v))
  }

  /** The record an imported element becomes: exactly the nine fields. */
  function NormaliseItem(item: Json): Record
    requires ItemError(item).None?
  {
    Record(
      TextOr(Property(item, Key(Date))),
      TextOr(Property(item, Key(ProductCode))),
      TextOr(Property(item, Key(ProductName))),
      TextOr(Property(item, Key(Spec))),
      TextOr(Property(item, Key(Unit))),
      NumberOr(Property(item, Key(Quantity))),
      NumberOr(Property(item, Key(Price))),
      TextOr(Property(item, Key(Supplier))),
      TextOr(Property(item, Key(Note))))
  }

  /** The parsed file mapped onto records, or the error that stops the import. */
  function ImportRecords(doc: ParseResult): (r: Result<seq<Record>, ImportError>)
    ensures r.Success? <==>
              && doc.Parsed? && doc.value.JArray?
              && forall i :: 0 <= i < |doc.value.items| ==> ItemError(doc.value.items[i]).None?
    ensures r.Success? ==>
              && |r.value| == |doc.value.items|
              && forall i :: 0 <= i < |r.value| ==> r.value[i] == NormaliseItem(doc.value.items[i])
    ensures doc.SyntaxError? ==> r == Failure(NotJson)
    ensures doc.Parsed? && !doc.value.JArray? ==> r == Failure(NotAnArray)
    ensures doc.Parsed? && doc.value.JArray? && r.Failure? ==>
              var items := doc.value.items;
              exists k :: 0 <= k < |items| && ItemError(items[k]) == Some(r.error) &&
                          (forall j :: 0 <= j < k ==> ItemError(items[j]).None?)
  {
    match doc
    case SyntaxError => Failure(NotJson)
    case Parsed(JArray(items)) =>
      if FirstItemError(items).Some? then Failure(FirstItemError(items).value)
      else Success(seq(|items|, i requires 0 <= i < |items| => NormaliseItem(items[i])))
    case Parsed(_) => Failure(NotAnArray)
  }

  function ValueJson(v: FieldValue): Json {
    match v
    case TextValue(t) => JString(t)
    case NumberValue(n) => JNumber(n)
  }

  /** The JSON object of one record as the save button writes it: its nine fields. */
  function RecordJson(r: Record): Json {
    JObject(map[
      Key(Date) := JString(r.date),
      Key(ProductCode) := JString(r.productCode),
      Key(ProductName) := JString(r.productName),
      Key(Spec) := JString(r.spec),
      Key(Unit) := JString(r.unit),
      Key(Quantity) := JNumber(r.quantity),
      Key(Price) := JNumber(r.price),
      Key(Supplier) := JString(r.supplier),
      Key(Note) := JString(r.note)])
  }

  /** The JSON value of the whole list as the save button writes it. */
  function ExportValue(rs: seq<Record>): Json {
    JArray(seq(|rs|, i requires 0 <= i < |rs| => RecordJson(rs[i])))
  }
}

module ImportFacts {
  import opened Wrappers
  import opened Numbers
  import opened NumberFacts
  import opened Records
  import opened RecordFacts
  import opened FileImport

  /** Each field of an imported record comes from the element's property of the same name. */
  lemma NormaliseItemFields(item: Json, f: Field)
    requires ItemError(item).None?
    ensures f.IsNumeric() ==> NormaliseItem(item).Value(f) == NumberValue(NumberOr(Property(item, Key(f))))
    ensures !f.IsNumeric() ==> NormaliseItem(item).Value(f) == TextValue(TextOr(Property(item, Key(f))))
  {
  }

  /** Properties other than the nine fields are dropped. */
  lemma ExtraPropertiesDropped(m: map<string, Json>, extra: map<string, Json>)
    requires forall f: Field :: Key(f) !in extra
    requires ItemError(JObject(m)).None?
    ensures ItemError(JObject(m + extra)).None?
    ensures NormaliseItem(JObject(m + extra)) == NormaliseItem(JObject(m))
  {
    forall f: Field ensures Property(JObject(m + extra), Key(f)) == Property(JObject(m), Key(f)) {
    }
    assert Key(Date) == "date" && Key(ProductCode) == "productCode" && Key(ProductName) == "productName";
    assert Key(Spec) == "spec" && Key(Unit) == "unit" && Key(Quantity) == "quantity";
    assert Key(Price) == "price" && Key(Supplier) == "supplier" && Key(Note) == "note";
  }

  /** A missing or null numeric property imports as 0. */
  lemma NumberOrMissing()
    ensures NumberOr(None) == 0.0
    ensures NumberOr(Some(JNull)) == 0.0
  {
    ParseOrZeroNoNumber("undefined");
    ParseOrZeroNoNumber("null");
  }

  /** A numeric property saved as a number imports as that number. */
  lemma NumberOrNumber(n: real)
    requires IsShortDecimal(n)
    ensures NumberOr(Some(JNumber(n))) == n
  {
    ParseOrZeroOfNumberToString(n);
  }

  /** The element {"date":"2024-01-01","productCode":"P1","productName":"Widget","quantity":"3","price":"bad"}. */
  function SampleElement(): Json {
    JObject(map[
      Key(Date) := JString("2024-01-01"), Key(ProductCode) := JString("P1"),
      Key(ProductName) := JString("Widget"), Key(Quantity) := JString("3"),
      Key(Price) := JString("bad")])
  }

  lemma SampleElementProperties()
    ensures Property(SampleElement(), Key(Date)) == Some(JString("2024-01-01"))
    ensures Property(SampleElement(), Key(ProductCode)) == Some(JString("P1"))
    ensures Property(SampleElement(), Key(ProductName)) == Some(JString("Widget"))
    ensures Property(SampleElement(), Key(Quantity)) == Some(JString("3"))
    ensures Property(SampleElement(), Key(Price)) == Some(JString("bad"))
    ensures Property(SampleElement(), Key(Spec)) == None
    ensures Property(SampleElement(), Key(Unit)) == None
    ensures Property(SampleElement(), Key(Supplier)) == None
    ensures Property(SampleElement(), Key(Note)) == None
  {
    KeysDistinct();
  }

  /**
   * The sample element imports as a record with quantity 3, price 0 and the
   * four missing text fields "".
   */
  lemma ImportScenario()
    ensures ImportRecords(Parsed(JArray([SampleElement()]))) ==
            Success([Record("2024-01-01", "P1", "Widget", "", "", 3.0, 0.0, "", "")])
  {
    SampleRecord();
    ImportSingle(SampleElement());
  }

  lemma ImportSingle(item: Json)
    requires ItemError(item).None?
    ensures ImportRecords(Parsed(JArray([item]))) == Success([NormaliseItem(item)])
  {
    var doc := Parsed(JArray([item]));
    assert forall i :: 0 <= i < |doc.value.items| ==> doc.value.items[i] == item;
    var r := ImportRecords(doc);
    assert r.value[0] == NormaliseItem(item);
    assert r.value == [NormaliseItem(item)];
  }

  /** The element {"quantity": {"toString": 1}}, whose quantity `parseFloat` cannot convert to text. */
  function UnconvertibleElement(): Json {
    JObject(map[Key(Quantity) := JObject(map["toString" := JNumber(1.0)])])
  }

  /**
   * An element whose quantity cannot be converted to text stops the import,
   * also ahead of a later null element: `map` throws at the first element
   * that throws.
   */
  lemma UnconvertibleStopsImport()
    ensures ImportRecords(Parsed(JArray([UnconvertibleElement()]))) == Failure(NotText)
    ensures ImportRecords(Parsed(JArray([UnconvertibleElement(), JNull]))) == Failure(NotText)
    ensures ImportRecords(Parsed(JArray([JNull, UnconvertibleElement()]))) == Failure(NullElement)
  {
    assert Property(UnconvertibleElement(), Key(Quantity)) == Some(JObject(map["toString" := JNumber(1.0)]));
    assert ItemError(UnconvertibleElement()) == Some(NotText);
    assert [UnconvertibleElement(), JNull][1..] == [JNull];
  }

  lemma SampleNumbers()
    ensures NumberOr(Some(JString("3"))) == 3.0
    ensures NumberOr(Some(JString("bad"))) == 0.0
  {
    ParseOrZeroDigits();
    ParseOrZeroNoNumber("bad");
  }

  lemma SampleRecord()
    ensures NormaliseItem(SampleElement()) == Record("2024-01-01", "P1", "Widget", "", "", 3.0, 0.0, "", "")
  {
    SampleElementProperties();
    SampleNumbers();
  }

  /** The saved object holds each field under its own key. */
  lemma RecordJsonProperty(r: Record, f: Field)
    ensures Property(RecordJson(r), Key(f)) == Some(ValueJson(r.Value(f)))
  {
    KeysDistinct();
  }

  /** An element whose nine properties hold a record's values imports as that record. */
  lemma NormaliseFromProperties(item: Json, r: Record)
    requires item != JNull && HasShortNumbers(r)
    requires forall f: Field :: Property(item, Key(f)) == Some(ValueJson(r.Value(f)))
    ensures ItemError(item).None? && NormaliseItem(item) == r
  {
    assert Property(item, Key(Quantity)) == Some(JNumber(r.quantity));
    assert Property(item, Key(Price)) == Some(JNumber(r.price));
    forall f: Field ensures NormaliseItem(item).Value(f) == r.Value(f) {
      NormaliseField(item, r, f);
    }
    ValuesDetermineRecord(NormaliseItem(item), r);
  }

  lemma NormaliseField(item: Json, r: Record, f: Field)
    requires ItemError(item).None? && HasShortNumbers(r)
    requires Property(item, Key(f)) == Some(ValueJson(r.Value(f)))
    ensures NormaliseItem(item).Value(f) == r.Value(f)
  {
    NormaliseItemFields(item, f);
    if f.IsNumeric() {
      var n := r.Value(f).number;
      assert n == r.quantity || n == r.price;
      NumberOrNumber(n);
    }
  }

  lemma RecordJsonRoundTrip(r: Record)
    requires HasShortNumbers(r)
    ensures ItemError(RecordJson(r)).None? && NormaliseItem(RecordJson(r)) == r
  {
    forall f: Field ensures Property(RecordJson(r), Key(f)) == Some(ValueJson(r.Value(f))) {
      RecordJsonProperty(r, f);
    }
    NormaliseFromProperties(RecordJson(r), r);
  }

  /** Saving the list and loading the saved file gives the same list back. */
  lemma ExportImportRoundTrip(rs: seq<Record>)
    requires forall i :: 0 <= i < |rs| ==> HasShortNumbers(rs[i])
    ensures ImportRecords(Parsed(ExportValue(rs))) == Success(rs)
  {
    var items := ExportValue(rs).items;
    forall i | 0 <= i < |rs| ensures ItemError(items[i]).None? && NormaliseItem(items[i]) == rs[i] {
      RecordJsonRoundTrip(rs[i]);
    }
    var r := ImportRecords(Parsed(ExportValue(rs)));
    assert r.Success? && |r.value| == |rs|;
    assert r.value == rs;
  }
}
