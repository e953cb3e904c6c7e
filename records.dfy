/**
 * A purchase line item and the draft form it is entered through.
 *
 * A committed record keeps quantity and price as numbers; the draft holds all
 * nine fields as raw text, exactly as typed.
 */
module Records {
  import opened Numbers

  /** One purchase line item. Its position in the list is its only identity. */
  datatype Record = Record(
    date: string,
    productCode: string,
    productName: string,
    spec: string,
    unit: string,
    quantity: real,
    price: real,
    supplier: string,
    note: string)
  {
    /** The value stored under field `f`. */
    function Value(f: Field): FieldValue {
      match f
      case Date => TextValue(date)
      case ProductCode => TextValue(productCode)
      case ProductName => TextValue(productName)
      case Spec => TextValue(spec)
      case Unit => TextValue(unit)
      case Quantity => NumberValue(quantity)
      case Price => NumberValue(price)
      case Supplier => TextValue(supplier)
      case Note => TextValue(note)
    }
  }

  /** The nine fields, in the order the form and the table show them. */
  datatype Field = Date | ProductCode | ProductName | Spec | Unit | Quantity | Price | Supplier | Note
  {
    /** The two fields stored as numbers. */
    predicate IsNumeric() {
      this == Quantity || this == Price
    }
  }

  /** What a record holds in one field: text, or a number for quantity and price. */
  datatype FieldValue = TextValue(text: string) | NumberValue(number: real)

  /** The draft form: nine raw strings. */
  datatype Draft = Draft(
    date: string,
    productCode: string,
    productName: string,
    spec: string,
    unit: string,
    quantity: string,
    price: string,
    supplier: string,
    note: string)
  {
    function Get(f: Field): string {
      match f
      case Date => date
      case ProductCode => productCode
      case ProductName => productName
      case Spec => spec
      case Unit => unit
      case Quantity => quantity
      case Price => price
      case Supplier => supplier
      case Note => note
    }

    /** `{ ...prev, [name]: value }`: the draft with one field replaced. */
    function Set(f: Field, v: string): (d: Draft)
      ensures d.Get(f) == v
      ensures forall g :: g != f ==> d.Get(g) == Get(g)
    {
      match f
      case Date => this.(date := v)
      case ProductCode => this.(productCode := v)
      case ProductName => this.(productName := v)
      case Spec => this.(spec := v)
      case Unit => this.(unit := v)
      case Quantity => this.(quantity := v)
      case Price => this.(price := v)
      case Supplier => this.(supplier := v)
      case Note => this.(note := v)
    }
  }

  /** The empty form, with all nine fields "". */
  const BlankDraft: Draft := Draft("", "", "", "", "", "", "", "", "")

  predicate IsBlank(d: Draft) {
    forall f: Field :: d.Get(f) == ""
  }

  /**
   * The record a submit commits: quantity and price coerced by
   * `parseFloat(x) || 0`, every other field copied from the draft as typed.
   */
  function Coerce(d: Draft): Record {
    Record(d.date, d.productCode, d.productName, d.spec, d.unit,
           ParseOrZero(d.quantity), ParseOrZero(d.price), d.supplier, d.note)
  }

  /** How a field value is written into the form: numbers through `toString`. */
  function Display(v: FieldValue): string {
    match v
    case TextValue(s) => s
    case NumberValue(n) => NumberToString(n)
  }

  /** The draft an edit loads from a record: every field shown as text. */
  function Load(r: Record): Draft {
    Draft(r.date, r.productCode, r.productName, r.spec, r.unit,
          NumberToString(r.quantity), NumberToString(r.price), r.supplier, r.note)
  }

  /** Quantity and price are written out exactly by `toString`. */
  predicate HasShortNumbers(r: Record) {
    IsShortDecimal(r.quantity) && IsShortDecimal(r.price)
  }
}

module RecordFacts {
  import opened Numbers
  import opened NumberFacts
  import opened Records

  /** A record is determined by the values of its nine fields. */
  lemma ValuesDetermineRecord(a: Record, b: Record)
    requires forall f: Field :: a.Value(f) == b.Value(f)
    ensures a == b
  {
    assert a.Value(Date) == b.Value(Date) && a.Value(ProductCode) == b.Value(ProductCode);
    assert a.Value(ProductName) == b.Value(ProductName) && a.Value(Spec) == b.Value(Spec);
    assert a.Value(Unit) == b.Value(Unit) && a.Value(Quantity) == b.Value(Quantity);
    assert a.Value(Price) == b.Value(Price) && a.Value(Supplier) == b.Value(Supplier);
    assert a.Value(Note) == b.Value(Note);
  }

  lemma BlankDraftIsBlank()
    ensures IsBlank(BlankDraft)
  {
    forall f: Field ensures BlankDraft.Get(f) == "" {
    }
  }

  /** Editing a record and submitting without changes commits the same record. */
  lemma EditRoundTrip(r: Record)
    requires HasShortNumbers(r)
    ensures Coerce(Load(r)) == r
  {
    ParseOrZeroOfNumberToString(r.quantity);
    ParseOrZeroOfNumberToString(r.price);
  }

  /**
   * The committed record holds quantity and price as `parseFloat(x) || 0` of
   * the typed text, and every other field exactly as typed.
   */
  lemma CoerceFields(d: Draft, f: Field)
    ensures !f.IsNumeric() ==> Coerce(d).Value(f) == TextValue(d.Get(f))
    ensures f.IsNumeric() ==> Coerce(d).Value(f) == NumberValue(ParseOrZero(d.Get(f)))
  {
  }

  /** The loaded draft shows every field of the record, numbers through `toString`. */
  lemma LoadDisplays(r: Record, f: Field)
    ensures Load(r).Get(f) == Display(r.Value(f))
  {
    match f
    case Quantity =>
    case Price =>
    case _ =>
  }
}
