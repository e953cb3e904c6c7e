/**
 * The `PurchaseManagement` component's state and its event handlers.
 *
 * The component keeps four pieces of state: the ordered list of purchases,
 * the draft form, the position being edited (if any) and the four search
 * inputs. Each handler replaces some of them; everything shown on screen (the
 * filtered table, its totals, the suggestions) is recomputed from them.
 */
module Component {
  import opened Wrappers
  import opened Records
  import opened RecordFacts
  import opened PurchaseView
  import opened ViewFacts
  import opened FileImport

  /** `list.filter((_, i) => i !== target)`: the list without position `target`. */
  function WithoutIndex<T>(s: seq<T>, target: nat): (r: seq<T>)
    ensures target < |s| ==> |r| == |s| - 1
    ensures target < |s| ==> forall j :: 0 <= j < target ==> r[j] == s[j]
    ensures target < |s| ==> forall j :: target <= j < |r| ==> r[j] == s[j + 1]
    ensures target >= |s| ==> r == s
  {
    if s == [] then []
    else WithoutIndex(s[..|s| - 1], target) + (if |s| - 1 == target then [] else [s[|s| - 1]])
  }

  /** The four search inputs. */
  datatype SearchInput = KeywordInput | DateInput | SupplierInput | NoteInput

  /** `setSearchFilter(prev => ({ ...prev, [input]: v }))`. */
  function WithInput(c: Criteria, input: SearchInput, v: string): (c': Criteria)
    ensures input == KeywordInput ==> c' == Criteria(v, c.date, c.supplier, c.note)
    ensures input == DateInput ==> c' == Criteria(c.keyword, v, c.supplier, c.note)
    ensures input == SupplierInput ==> c' == Criteria(c.keyword, c.date, v, c.note)
    ensures input == NoteInput ==> c' == Criteria(c.keyword, c.date, c.supplier, v)
  {
    match input
    case KeywordInput => c.(keyword := v)
    case DateInput => c.(date := v)
    case SupplierInput => c.(supplier := v)
    case NoteInput => c.(note := v)
  }

  /**
   * The position in the list of the record shown in row `row` of the filtered
   * table.
   */
  function StoreIndexOfRow(p: seq<Record>, c: Criteria, row: nat): (i: nat)
    requires row < |Filtered(p, c)|
    ensures i < |p| && p[i] == Filtered(p, c)[row]
    ensures row < |MatchingIndices(p, c, 0)| && i == MatchingIndices(p, c, 0)[row]
  {
    FilteredIsSubsequence(p, c);
    MatchingIndices(p, c, 0)[row]
  }

  class PurchaseManagement {
    var purchases: seq<Record>
    var purchaseForm: Draft
    var editIndex: Option<nat>
    var searchFilter: Criteria

    /** The list starts from what the storage held (or empty); the form and the search start blank. */
    constructor (saved: seq<Record>)
      ensures purchases == saved
      ensures purchaseForm == BlankDraft && editIndex == None && searchFilter == NoCriteria
    {
      purchases := saved;
      purchaseForm := BlankDraft;
      editIndex := None;
      searchFilter := NoCriteria;
    }

    /** The rows of the table. */
    function FilteredPurchases(): seq<Record>
      reads this
    {
      Filtered(purchases, searchFilter)
    }

    function TotalQuantityShown(): real
      reads this
    {
      TotalQuantity(FilteredPurchases())
    }

    function TotalAmountShown(): real
      reads this
    {
      TotalAmount(FilteredPurchases())
    }

    /** Blank the form and stop editing. */
    method ClearForm()
      modifies this
      ensures purchaseForm == BlankDraft && editIndex == None
      ensures purchases == old(purchases) && searchFilter == old(searchFilter)
    {
      purchaseForm := BlankDraft;
      editIndex := None;
    }

    /** Typing into form field `name`. */
    method HandleChange(name: Field, value: string)
      modifies this
      ensures purchaseForm.Get(name) == value
      ensures forall g :: g != name ==> purchaseForm.Get(g) == old(purchaseForm).Get(g)
      ensures purchases == old(purchases) && editIndex == old(editIndex) && searchFilter == old(searchFilter)
    {
      purchaseForm := purchaseForm.Set(name, value);
    }

    /**
     * Submitting the form: the coerced draft is appended, or replaces the
     * record being edited; then the form is blanked.
     *
     * The component does not check the edited position against the list; a
     * position past the end (left over when a file is loaded during an edit)
     * is excluded here.
     */
    method HandleSubmit()
      requires editIndex.Some? ==> editIndex.value < |purchases|
      modifies this
      ensures old(editIndex).None? ==> purchases == old(purchases) + [Coerce(old(purchaseForm))]
      ensures old(editIndex).Some? ==>
                && |purchases| == |old(purchases)|
                && purchases[old(editIndex).value] == Coerce(old(purchaseForm))
                && forall j :: 0 <= j < |purchases| && j != old(editIndex).value ==> purchases[j] == old(purchases)[j]
      ensures purchaseForm == BlankDraft && editIndex == None && searchFilter == old(searchFilter)
    {
      var newForm := Coerce(purchaseForm);
      match editIndex {
        case Some(i) =>
          var updated := purchases;
          updated := updated[i := newForm];
          purchases := updated;
        case None =>
          purchases := purchases + [newForm];
      }
      ClearForm();
    }

    /**
     * Loading record `index` into the form for editing.
     *
     * The table's edit button passes the row number within the FILTERED view,
     * while this handler reads `purchases[index]`: with a search active it can
     * load a different record from the one clicked. HandleEditRow is the
     * handler the button evidently means.
     */
    method HandleEdit(index: nat)
      requires index < |purchases|
      modifies this
      ensures purchaseForm == Load(old(purchases)[index]) && editIndex == Some(index)
      ensures purchases == old(purchases) && searchFilter == old(searchFilter)
    {
      var item := purchases[index];
      purchaseForm := Load(item);
      editIndex := Some(index);
    }

    /** Editing the record shown in row `row` of the filtered table. */
    method HandleEditRow(row: nat)
      requires row < |FilteredPurchases()|
      modifies this
      ensures purchaseForm == Load(old(FilteredPurchases())[row])
      ensures row < |MatchingIndices(old(purchases), old(searchFilter), 0)|
      ensures editIndex == Some(MatchingIndices(old(purchases), old(searchFilter), 0)[row])
      ensures editIndex.value < |purchases|
      ensures purchases[editIndex.value] == old(FilteredPurchases())[row]
      ensures purchases == old(purchases) && searchFilter == old(searchFilter)
    {
      HandleEdit(StoreIndexOfRow(purchases, searchFilter, row));
    }

    /** Deleting the record being edited; nothing happens when no edit is in progress. */
    method HandleDelete()
      modifies this
      ensures old(editIndex).Some? ==>
                && purchases == WithoutIndex(old(purchases), old(editIndex).value)
                && purchaseForm == BlankDraft && editIndex == None
      ensures old(editIndex).None? ==>
                purchases == old(purchases) && purchaseForm == old(purchaseForm) && editIndex == None
      ensures searchFilter == old(searchFilter)
    {
      if editIndex.Some? {
        var updated := WithoutIndex(purchases, editIndex.value);
        purchases := updated;
        ClearForm();
      }
    }

    /** Cancelling: the form is blanked and the edit dropped; the list is untouched. */
    method HandleCancel()
      modifies this
      ensures purchaseForm == BlankDraft && editIndex == None
      ensures purchases == old(purchases) && searchFilter == old(searchFilter)
    {
      ClearForm();
    }

    /** Typing into one of the search inputs. */
    method HandleSearchInput(input: SearchInput, value: string)
      modifies this
      ensures searchFilter == WithInput(old(searchFilter), input, value)
      ensures purchases == old(purchases) && purchaseForm == old(purchaseForm) && editIndex == old(editIndex)
    {
      searchFilter := WithInput(searchFilter, input, value);
    }

    /**
     * The file reader's completion: on success the list is replaced by the
     * normalised records and the search is reset; when parsing or mapping
     * throws, nothing changes and the error is returned. The form and the
     * edited position are left as they were.
     */
    method HandleLoadFromFile(doc: ParseResult) returns (thrown: Option<ImportError>)
      modifies this
      ensures ImportRecords(doc).Success? ==>
                && purchases == ImportRecords(doc).value && searchFilter == NoCriteria && thrown == None
      ensures ImportRecords(doc).Failure? ==>
                && purchases == old(purchases) && searchFilter == old(searchFilter)
                && thrown == Some(ImportRecords(doc).error)
      ensures purchaseForm == old(purchaseForm) && editIndex == old(editIndex)
    {
      match ImportRecords(doc)
      case Success(data) =>
        purchases := data;
        searchFilter := NoCriteria;
        thrown := None;
      case Failure(e) =>
        thrown := Some(e);
    }
  }

  /**
   * Editing a record and submitting the form unchanged leaves the list as it
   * was.
   */
  method EditThenSubmit(m: PurchaseManagement, i: nat)
    requires i < |m.purchases| && HasShortNumbers(m.purchases[i])
    modifies m
    ensures m.purchases == old(m.purchases)
    ensures m.purchaseForm == BlankDraft && m.editIndex == None
  {
    m.HandleEdit(i);
    m.HandleSubmit();
    EditRoundTrip(old(m.purchases)[i]);
    assert m.purchases == old(m.purchases);
  }

  /**
   * Submitting a new record moves the totals under the table by its quantity
   * and amount when it matches the search, and leaves them alone otherwise.
   */
  method SubmitNewUpdatesTotals(m: PurchaseManagement)
    requires m.editIndex.None?
    modifies m
    ensures m.purchases == old(m.purchases) + [Coerce(old(m.purchaseForm))]
    ensures m.searchFilter == old(m.searchFilter)
    ensures var r := m.purchases[|m.purchases| - 1];
            && m.TotalQuantityShown() == old(m.TotalQuantityShown()) + (if Matches(r, m.searchFilter) then r.quantity else 0.0)
            && m.TotalAmountShown() == old(m.TotalAmountShown()) + (if Matches(r, m.searchFilter) then Amount(r) else 0.0)
  {
    var p, c := m.purchases, m.searchFilter;
    assert old(m.TotalQuantityShown()) == TotalQuantity(Filtered(p, c));
    assert old(m.TotalAmountShown()) == TotalAmount(Filtered(p, c));
    m.HandleSubmit();
    var r := m.purchases[|m.purchases| - 1];
    assert m.purchases == p + [r] && m.searchFilter == c;
    FilteredTotalsStep(p, r, c);
    assert m.TotalQuantityShown() == TotalQuantity(Filtered(p + [r], c));
    assert m.TotalAmountShown() == TotalAmount(Filtered(p + [r], c));
  }

  /**
   * With a search active, the edit button of the first row passes 0, and
   * HandleEdit(0) loads the first record of the whole list, not the one shown
   * in that row: list [A-record, B-record], searching supplier "B" shows only
   * the B-record, yet row 0 loads the A-record.
   */
  lemma EditButtonLoadsOtherRecord()
    ensures var a := Record("", "", "", "", "", 1.0, 1.0, "A", "");
            var b := Record("", "", "", "", "", 1.0, 1.0, "B", "");
            var c := NoCriteria.(supplier := "B");
            && Filtered([a, b], c) == [b]
            && Load([a, b][0]) != Load(Filtered([a, b], c)[0])
            && StoreIndexOfRow([a, b], c, 0) == 1
  {
    var a := Record("", "", "", "", "", 1.0, 1.0, "A", "");
    var b := Record("", "", "", "", "", 1.0, 1.0, "B", "");
    var c := NoCriteria.(supplier := "B");
    Text.ContainsEmptyNeedle("");
    assert Text.Lower("A") == "a" && Text.Lower("B") == "b";
    assert !Text.Contains("a", "b") by {
      assert !("b" <= "a");
      assert "a"[1..] == "";
    }
    assert Text.Contains("b", "b");
    assert !Matches(a, c) && Matches(b, c);
    assert [a, b][1..] == [b] && [b][1..] == [];
    assert Filtered([b], c) == [b] + Filtered([], c);
    assert Filtered([a, b], c) == [b];
    assert Load(a).supplier != Load(b).supplier;
  }
}
