/**
 * What the component derives from the record list on every render: the
 * filtered view, its totals, and the input suggestions of each form field.
 */
module PurchaseView {
  import opened Text
  import opened Records

  /** The four search inputs. */
  datatype Criteria = Criteria(keyword: string, date: string, supplier: string, note: string)

  const NoCriteria: Criteria := Criteria("", "", "", "")

  /** The keyword occurs, ignoring case, in the product code or in the product name. */
  predicate KeywordMatch(r: Record, c: Criteria) {
    Contains(Lower(r.productCode), Lower(c.keyword)) || Contains(Lower(r.productName), Lower(c.keyword))
  }

  /** An empty date criterion matches every record; otherwise the dates must be equal. */
  predicate DateMatch(r: Record, c: Criteria) {
    c.date == "" || r.date == c.date
  }

  predicate SupplierMatch(r: Record, c: Criteria) {
    Contains(Lower(r.supplier), Lower(c.supplier))
  }

  predicate NoteMatch(r: Record, c: Criteria) {
    Contains(Lower(r.note), Lower(c.note))
  }

  /** The filter predicate: all four criteria hold. */
  predicate Matches(r: Record, c: Criteria) {
    KeywordMatch(r, c) && DateMatch(r, c) && SupplierMatch(r, c) && NoteMatch(r, c)
  }

  /** `purchases.filter(item => Matches(item))`. */
  function Filtered(p: seq<Record>, c: Criteria): (v: seq<Record>)
    ensures |v| <= |p|
    ensures forall k :: 0 <= k < |v| ==> Matches(v[k], c)
  {
    if p == [] then []
    else (if Matches(p[0], c) then [p[0]] else []) + Filtered(p[1..], c)
  }

  /**
   * The positions, from `j` on, of the records that match: an independent
   * description of which records the view keeps and in what order.
   */
  function MatchingIndices(p: seq<Record>, c: Criteria, j: nat): (ix: seq<nat>)
    requires j <= |p|
    ensures forall k :: 0 <= k < |ix| ==> j <= ix[k] < |p| && Matches(p[ix[k]], c)
    ensures forall k, l :: 0 <= k < l < |ix| ==> ix[k] < ix[l]
    ensures forall i :: j <= i < |p| && Matches(p[i], c) ==> i in ix
    decreases |p| - j
  {
    if j == |p| then []
    else (if Matches(p[j], c) then [j] else []) + MatchingIndices(p, c, j + 1)
  }

  /** `reduce((sum, item) => sum + item.quantity, 0)`, accumulating from the left. */
  function TotalQuantity(v: seq<Record>): real {
    if v == [] then 0.0 else TotalQuantity(v[..|v| - 1]) + v[|v| - 1].quantity
  }

  /** The amount of one purchase: quantity times unit price. */
  function Amount(r: Record): real {
    r.quantity * r.price
  }

  /** `reduce((sum, item) => sum + item.quantity * item.price, 0)`. */
  function TotalAmount(v: seq<Record>): real {
    if v == [] then 0.0 else TotalAmount(v[..|v| - 1]) + Amount(v[|v| - 1])
  }

  /** Whether JavaScript treats a field value as true: non-empty text, a non-zero number. */
  predicate Truthy(v: FieldValue) {
    match v
    case TextValue(s) => s != ""
    case NumberValue(n) => n != 0.0
  }

  /** `purchases.map(item => item[key])`. */
  function FieldValues(p: seq<Record>, f: Field): (vs: seq<FieldValue>)
    ensures |vs| == |p| && forall i :: 0 <= i < |p| ==> vs[i] == p[i].Value(f)
  {
    if p == [] then [] else [p[0].Value(f)] + FieldValues(p[1..], f)
  }

  /** `.filter(v => v)`. */
  function TruthyOnly(vs: seq<FieldValue>): (t: seq<FieldValue>)
    ensures forall x :: x in t <==> x in vs && Truthy(x)
  {
    if vs == [] then []
    else (if Truthy(vs[0]) then [vs[0]] else []) + TruthyOnly(vs[1..])
  }

  /** `[...new Set(s)]`: each value once, in the order it first occurs. */
  function Distinct<T(==)>(s: seq<T>): (d: seq<T>)
    ensures forall i :: 0 <= i < |s| ==> s[i] in d
    ensures forall k :: 0 <= k < |d| ==> d[k] in s
    ensures forall i, j :: 0 <= i < j < |d| ==> d[i] != d[j]
  {
    if s == [] then []
    else
      var d := Distinct(s[..|s| - 1]);
      if s[|s| - 1] in d then d else d + [s[|s| - 1]]
  }

  /** The datalist options offered for field `f`. */
  function Suggestions(p: seq<Record>, f: Field): seq<FieldValue> {
    Distinct(TruthyOnly(FieldValues(p, f)))
  }
}

module ViewFacts {
  import opened Text
  import opened Records
  import opened PurchaseView

  /** The view holds exactly the records of the list that match. */
  lemma {:induction false} FilteredMembers(p: seq<Record>, c: Criteria, x: Record)
    ensures x in Filtered(p, c) <==> x in p && Matches(x, c)
  {
    if p != [] {
      FilteredMembers(p[1..], c, x);
      assert x in p <==> x == p[0] || x in p[1..];
    }
  }

  /** Filtering distributes over concatenation: the view keeps the list's order. */
  lemma {:induction false} FilteredAppend(p: seq<Record>, q: seq<Record>, c: Criteria)
    ensures Filtered(p + q, c) == Filtered(p, c) + Filtered(q, c)
  {
    if p == [] {
      assert p + q == q;
    } else {
      assert (p + q)[0] == p[0];
      assert (p + q)[1..] == p[1..] + q;
      FilteredAppend(p[1..], q, c);
    }
  }

  lemma FilteredFromStep(p: seq<Record>, c: Criteria, j: nat)
    requires j < |p|
    ensures Filtered(p[j..], c) == (if Matches(p[j], c) then [p[j]] else []) + Filtered(p[j + 1..], c)
  {
    assert p[j..][0] == p[j];
    assert p[j..][1..] == p[j + 1..];
  }

  /** `v` is `p` taken at the positions `ix`. */
  predicate TakenAt(v: seq<Record>, p: seq<Record>, ix: seq<nat>) {
    |v| == |ix| && forall k :: 0 <= k < |ix| ==> ix[k] < |p| && v[k] == p[ix[k]]
  }

  lemma TakenAtCons(v: seq<Record>, p: seq<Record>, ix: seq<nat>, j: nat)
    requires TakenAt(v, p, ix) && j < |p|
    ensures TakenAt([p[j]] + v, p, [j] + ix)
  {
    forall k | 0 < k < |ix| + 1
      ensures ([p[j]] + v)[k] == p[([j] + ix)[k]]
    {
      assert ([p[j]] + v)[k] == v[k - 1] && ([j] + ix)[k] == ix[k - 1];
    }
  }

  lemma {:induction false} FilteredFromIsSubsequence(p: seq<Record>, c: Criteria, j: nat)
    requires j <= |p|
    ensures TakenAt(Filtered(p[j..], c), p, MatchingIndices(p, c, j))
    decreases |p| - j
  {
    if j < |p| {
      FilteredFromIsSubsequence(p, c, j + 1);
      FilteredFromStep(p, c, j);
      if Matches(p[j], c) {
        TakenAtCons(Filtered(p[j + 1..], c), p, MatchingIndices(p, c, j + 1), j);
      }
    } else {
      assert p[j..] == [];
    }
  }

  /**
   * The view is the subsequence of the list at the ascending positions of the
   * matching records: it keeps every match, nothing else, in list order.
   */
  lemma FilteredIsSubsequence(p: seq<Record>, c: Criteria)
    ensures var ix := MatchingIndices(p, c, 0);
            |Filtered(p, c)| == |ix| &&
            forall k :: 0 <= k < |ix| ==> Filtered(p, c)[k] == p[ix[k]]
  {
    FilteredFromIsSubsequence(p, c, 0);
    assert p[0..] == p;
  }

  /** With all four search inputs empty every record matches. */
  lemma MatchesNoCriteria(r: Record)
    ensures Matches(r, NoCriteria)
  {
    ContainsEmptyNeedle(r.productCode);
    ContainsEmptyNeedle(r.supplier);
    ContainsEmptyNeedle(r.note);
  }

  /** With all four search inputs empty the view is the whole list, in order. */
  lemma {:induction false} FilterNoCriteria(p: seq<Record>)
    ensures Filtered(p, NoCriteria) == p
  {
    if p != [] {
      MatchesNoCriteria(p[0]);
      FilterNoCriteria(p[1..]);
      assert [p[0]] + p[1..] == p;
    }
  }

  /** Totals add up over concatenation. */
  lemma {:induction false} TotalsAppend(a: seq<Record>, b: seq<Record>)
    ensures TotalQuantity(a + b) == TotalQuantity(a) + TotalQuantity(b)
    ensures TotalAmount(a + b) == TotalAmount(a) + TotalAmount(b)
    decreases |b|
  {
    if b == [] {
      assert a + b == a;
    } else {
      var b' := b[..|b| - 1];
      assert (a + b)[..|a + b| - 1] == a + b';
      assert (a + b)[|a + b| - 1] == b[|b| - 1];
      TotalsAppend(a, b');
    }
  }

  lemma TotalsSingle(r: Record)
    ensures TotalQuantity([r]) == r.quantity
    ensures TotalAmount([r]) == Amount(r)
  {
    assert [r][..0] == [];
  }

  /**
   * Adding a record to the list adds its quantity and amount to the totals
   * exactly when it matches the search inputs.
   */
  lemma FilteredTotalsStep(p: seq<Record>, r: Record, c: Criteria)
    ensures TotalQuantity(Filtered(p + [r], c)) ==
            TotalQuantity(Filtered(p, c)) + (if Matches(r, c) then r.quantity else 0.0)
    ensures TotalAmount(Filtered(p + [r], c)) ==
            TotalAmount(Filtered(p, c)) + (if Matches(r, c) then Amount(r) else 0.0)
  {
    FilteredAppend(p, [r], c);
    assert [r][1..] == [];
    var tail := Filtered([r], c);
    TotalsAppend(Filtered(p, c), tail);
    if Matches(r, c) {
      assert tail == [r];
      TotalsSingle(r);
    } else {
      assert tail == [];
    }
  }

  /** The first position of `x` in `s`. */
  function FirstIndex<T(==)>(s: seq<T>, x: T): (i: nat)
    requires x in s
    ensures i < |s| && s[i] == x && x !in s[..i]
  {
    if s[0] == x then 0 else 1 + FirstIndex(s[1..], x)
  }

  lemma {:induction false} FirstIndexSnoc<T>(s: seq<T>, y: T, x: T)
    requires x in s
    ensures x in s + [y] && FirstIndex(s + [y], x) == FirstIndex(s, x)
  {
    assert (s + [y])[0] == s[0];
    if s[0] != x {
      assert (s + [y])[1..] == s[1..] + [y];
      FirstIndexSnoc(s[1..], y, x);
    }
  }

  lemma {:induction false} FirstIndexNew<T>(s: seq<T>, x: T)
    requires x !in s
    ensures x in s + [x] && FirstIndex(s + [x], x) == |s|
  {
    if s != [] {
      assert (s + [x])[1..] == s[1..] + [x];
      FirstIndexNew(s[1..], x);
    }
  }

  /** The distinct values come in the order of their first occurrences. */
  lemma {:induction false} DistinctInFirstOccurrenceOrder<T>(s: seq<T>, i: nat, j: nat)
    requires i < j < |Distinct(s)|
    ensures FirstIndex(s, Distinct(s)[i]) < FirstIndex(s, Distinct(s)[j])
  {
    var s' := s[..|s| - 1];
    var last := s[|s| - 1];
    var d' := Distinct(s');
    assert s == s' + [last];
    if last in d' {
      DistinctInFirstOccurrenceOrder(s', i, j);
      FirstIndexSnoc(s', last, d'[i]);
      FirstIndexSnoc(s', last, d'[j]);
    } else {
      FirstIndexSnoc(s', last, Distinct(s)[i]);
      if j < |d'| {
        DistinctInFirstOccurrenceOrder(s', i, j);
        FirstIndexSnoc(s', last, d'[j]);
      } else {
        assert last !in s';
        FirstIndexNew(s', last);
      }
    }
  }

  /**
   * A field's suggestions are its truthy values across the list, each exactly
   * once.
   */
  lemma SuggestionsMembers(p: seq<Record>, f: Field, x: FieldValue)
    ensures x in Suggestions(p, f) <==> Truthy(x) && exists i :: 0 <= i < |p| && p[i].Value(f) == x
  {
    var vs := FieldValues(p, f);
    var t := TruthyOnly(vs);
    if x in Suggestions(p, f) {
      var k :| 0 <= k < |Distinct(t)| && Distinct(t)[k] == x;
      assert x in t;
    }
    if Truthy(x) && exists i :: 0 <= i < |p| && p[i].Value(f) == x {
      var i :| 0 <= i < |p| && p[i].Value(f) == x;
      assert vs[i] == x;
      var m :| 0 <= m < |t| && t[m] == x;
    }
  }

  /** `filter(v => v)` distributes over concatenation, so the truthy values keep their order. */
  lemma {:induction false} TruthyOnlyAppend(a: seq<FieldValue>, b: seq<FieldValue>)
    ensures TruthyOnly(a + b) == TruthyOnly(a) + TruthyOnly(b)
  {
    if a == [] {
      assert a + b == b;
    } else {
      assert (a + b)[0] == a[0];
      assert (a + b)[1..] == a[1..] + b;
      TruthyOnlyAppend(a[1..], b);
    }
  }

  /** Dropping the falsy values keeps the relative order of the first occurrences of the truthy ones. */
  lemma {:induction false} TruthyOnlyFirstIndexOrder(vs: seq<FieldValue>, x: FieldValue, y: FieldValue)
    requires x in TruthyOnly(vs) && y in TruthyOnly(vs)
    ensures FirstIndex(TruthyOnly(vs), x) < FirstIndex(TruthyOnly(vs), y) <==> FirstIndex(vs, x) < FirstIndex(vs, y)
  {
    var t := TruthyOnly(vs);
    var t' := TruthyOnly(vs[1..]);
    if Truthy(vs[0]) {
      assert t == [vs[0]] + t';
      assert t[0] == vs[0] && t[1..] == t';
      if x != vs[0] && y != vs[0] {
        TruthyOnlyFirstIndexOrder(vs[1..], x, y);
      }
    } else {
      assert t == t';
      assert x != vs[0] && y != vs[0];
      TruthyOnlyFirstIndexOrder(vs[1..], x, y);
    }
  }

  /**
   * A field's suggestions come in list order: of two suggestions, the one
   * shown first is first held by an earlier record.
   */
  lemma SuggestionsInListOrder(p: seq<Record>, f: Field, i: nat, j: nat)
    requires i < j < |Suggestions(p, f)|
    ensures Suggestions(p, f)[i] in FieldValues(p, f) && Suggestions(p, f)[j] in FieldValues(p, f)
    ensures FirstIndex(FieldValues(p, f), Suggestions(p, f)[i]) < FirstIndex(FieldValues(p, f), Suggestions(p, f)[j])
  {
    var vs := FieldValues(p, f);
    var t := TruthyOnly(vs);
    var s := Distinct(t);
    DistinctInFirstOccurrenceOrder(t, i, j);
    assert s[i] in t && s[j] in t;
    TruthyOnlyFirstIndexOrder(vs, s[i], s[j]);
  }

  /**
   * Three records with quantities 2, 3, 5, prices 10, 20, 4 and suppliers
   * "A", "B", "A": searching for supplier "A" shows two records, quantity 7,
   * amount 2 * 10 + 5 * 4 = 40.
   */
  lemma TotalsScenario()
    ensures var p := [Record("", "", "", "", "", 2.0, 10.0, "A", ""),
                      Record("", "", "", "", "", 3.0, 20.0, "B", ""),
                      Record("", "", "", "", "", 5.0, 4.0, "A", "")];
            var c := NoCriteria.(supplier := "A");
            |Filtered(p, c)| == 2 && TotalQuantity(Filtered(p, c)) == 7.0 && TotalAmount(Filtered(p, c)) == 40.0
  {
    var r1 := Record("", "", "", "", "", 2.0, 10.0, "A", "");
    var r2 := Record("", "", "", "", "", 3.0, 20.0, "B", "");
    var r3 := Record("", "", "", "", "", 5.0, 4.0, "A", "");
    var p := [r1, r2, r3];
    var c := NoCriteria.(supplier := "A");
    ContainsEmptyNeedle("");
    assert Lower("A") == "a" && Lower("B") == "b";
    assert Contains("a", "a");
    assert !Contains("b", "a") by {
      assert !("a" <= "b");
      assert "b"[1..] == "";
    }
    assert Matches(r1, c) && !Matches(r2, c) && Matches(r3, c);
    assert p[1..] == [r2, r3] && p[1..][1..] == [r3] && p[1..][1..][1..] == [];
    assert Filtered([r3], c) == [r3] + Filtered([], c) == [r3];
    assert Filtered([r2, r3], c) == [] + Filtered([r3], c);
    assert Filtered(p, c) == [r1] + Filtered([r2, r3], c);
    assert Filtered(p, c) == [r1, r3];
    assert [r1, r3][..1] == [r1];
    TotalsSingle(r1);
  }
}
