/**
 * The catalog page's pure logic: the keyword/type/brand filter behind the
 * car grid, the distinct type and brand lists behind the two filter
 * drop-downs, and the search suggestions.
 */
module Catalog {
  import opened Text
  import opened Records

  // ---------- filter ----------

  /**
   * The keyword test: an empty keyword matches everything; otherwise the
   * (already lower-cased) keyword occurs in the lower-cased type, brand,
   * model or description.
   */
  predicate KeywordMatches(car: Car, keyword: string) {
    || keyword == []
    || Includes(ToLower(car.carType), keyword)
    || Includes(ToLower(car.brand), keyword)
    || Includes(ToLower(car.model), keyword)
    || Includes(ToLower(car.description), keyword)
  }

  /** The three tests of the filter callback, ANDed; an empty type or brand is a wildcard. */
  predicate CarMatches(car: Car, keyword: string, carType: string, brand: string) {
    && KeywordMatches(car, keyword)
    && (carType == [] || car.carType == carType)
    && (brand == [] || car.brand == brand)
  }

  /** `cars.filter(...)` with the given lower-cased keyword. */
  function Select(cars: seq<Car>, keyword: string, carType: string, brand: string): seq<Car> {
    if cars == [] then []
    else
      (if CarMatches(cars[0], keyword, carType, brand) then [cars[0]] else [])
      + Select(cars[1..], keyword, carType, brand)
  }

  /**
   * The cars the grid shows for the search box text and the two drop-down
   * values: exactly the matching cars, each as often as it occurs in the
   * catalog, no other car, and in catalog order.
   */
  function FilterCars(cars: seq<Car>, searchText: string, carType: string, brand: string): (r: seq<Car>)
    ensures IsSubsequence(r, cars)
    ensures forall c ::
      multiset(r)[c] == if CarMatches(c, ToLower(searchText), carType, brand) then multiset(cars)[c] else 0
    ensures forall c :: c in r <==> c in cars && CarMatches(c, ToLower(searchText), carType, brand)
  {
    SelectIsOrderedSelection(cars, ToLower(searchText), carType, brand);
    Select(cars, ToLower(searchText), carType, brand)
  }

  /** `xs` can be obtained from `ys` by deleting elements: the order of `ys` is kept. */
  predicate IsSubsequence<T(==)>(xs: seq<T>, ys: seq<T>) {
    || xs == []
    || (ys != [] && ((xs[0] == ys[0] && IsSubsequence(xs[1..], ys[1..])) || IsSubsequence(xs, ys[1..])))
  }

  /** How often `c` occurs in the selection: as often as in the catalog if it matches, else never. */
  lemma {:induction false} SelectCount(cars: seq<Car>, kw: string, carType: string, brand: string, c: Car)
    ensures multiset(Select(cars, kw, carType, brand))[c]
         == if CarMatches(c, kw, carType, brand) then multiset(cars)[c] else 0
  {
    if cars != [] {
      SelectCount(cars[1..], kw, carType, brand, c);
      assert cars == [cars[0]] + cars[1..];
    }
  }

  lemma {:induction false} SelectIsSubsequence(cars: seq<Car>, kw: string, carType: string, brand: string)
    ensures IsSubsequence(Select(cars, kw, carType, brand), cars)
  {
    if cars != [] {
      var rest := Select(cars[1..], kw, carType, brand);
      SelectIsSubsequence(cars[1..], kw, carType, brand);
      if CarMatches(cars[0], kw, carType, brand) {
        assert Select(cars, kw, carType, brand) == [cars[0]] + rest;
        assert ([cars[0]] + rest)[1..] == rest;
      } else {
        assert Select(cars, kw, carType, brand) == rest;
      }
    }
  }

  /** `Select` keeps the matching cars with their multiplicity, and nothing else, in order. */
  lemma SelectIsOrderedSelection(cars: seq<Car>, kw: string, carType: string, brand: string)
    ensures var r := Select(cars, kw, carType, brand);
      && IsSubsequence(r, cars)
      && (forall c :: multiset(r)[c] == if CarMatches(c, kw, carType, brand) then multiset(cars)[c] else 0)
      && (forall c :: c in r <==> c in cars && CarMatches(c, kw, carType, brand))
  {
    var r := Select(cars, kw, carType, brand);
    SelectIsSubsequence(cars, kw, carType, brand);
    forall c ensures multiset(r)[c] == if CarMatches(c, kw, carType, brand) then multiset(cars)[c] else 0 {
      SelectCount(cars, kw, carType, brand, c);
    }
    forall c ensures c in r <==> c in cars && CarMatches(c, kw, carType, brand) {
      SelectCount(cars, kw, carType, brand, c);
    }
  }

  // ---------- distinct values in first-seen order ----------

  /** `[...new Set(xs)]`: each value once, in the order of its first occurrence. */
  function Distinct(xs: seq<string>): (r: seq<string>)
    ensures forall x :: x in r <==> x in xs
    ensures forall i, j :: 0 <= i < j < |r| ==> r[i] != r[j]
  {
    if xs == [] then []
    else
      var prev := Distinct(xs[..|xs| - 1]);
      var x := xs[|xs| - 1];
      assert xs == xs[..|xs| - 1] + [x];
      if x in prev then prev else prev + [x]
  }

  /** Position of the first occurrence of `x` in `xs`. */
  function FirstIndex<T(==)>(xs: seq<T>, x: T): (k: nat)
    requires x in xs
    ensures k < |xs| && xs[k] == x
    ensures forall j :: 0 <= j < k ==> xs[j] != x
  {
    if xs[0] == x then 0 else 1 + FirstIndex(xs[1..], x)
  }

  /** The first occurrence is the position that holds `x` with no `x` before it. */
  lemma {:induction false} FirstIndexIs<T>(xs: seq<T>, x: T, k: nat)
    requires k < |xs| && xs[k] == x
    requires forall j :: 0 <= j < k ==> xs[j] != x
    ensures FirstIndex(xs, x) == k
  {
    if k > 0 {
      assert xs[0] != x;
      FirstIndexIs(xs[1..], x, k - 1);
    }
  }

  /** An element already present in a prefix has its first occurrence there. */
  lemma FirstIndexInPrefix<T>(xs: seq<T>, n: nat, x: T)
    requires n <= |xs| && x in xs[..n]
    ensures x in xs && FirstIndex(xs, x) == FirstIndex(xs[..n], x)
  {
    var b := FirstIndex(xs[..n], x);
    assert xs[b] == x;
    forall j | 0 <= j < b ensures xs[j] != x {
      assert xs[..n][j] != x;
    }
    FirstIndexIs(xs, x, b);
  }

  /** Distinct lists values in the order of their first occurrences in the input. */
  lemma {:induction false} DistinctKeepsFirstOccurrenceOrder(xs: seq<string>)
    ensures forall i, j :: 0 <= i < j < |Distinct(xs)| ==>
              FirstIndex(xs, Distinct(xs)[i]) < FirstIndex(xs, Distinct(xs)[j])
  {
    if xs != [] {
      var init := xs[..|xs| - 1];
      var x := xs[|xs| - 1];
      var prev := Distinct(init);
      var r := Distinct(xs);
      assert r == if x in prev then prev else prev + [x];
      DistinctKeepsFirstOccurrenceOrder(init);
      forall i | 0 <= i < |prev| ensures FirstIndex(xs, prev[i]) == FirstIndex(init, prev[i]) {
        FirstIndexInPrefix(xs, |xs| - 1, prev[i]);
      }
      if x !in prev {
        assert x !in init;
        forall j | 0 <= j < |xs| - 1 ensures xs[j] != x {
          assert init[j] == xs[j];
        }
        FirstIndexIs(xs, x, |xs| - 1);
      }
      forall i, j | 0 <= i < j < |r| ensures FirstIndex(xs, r[i]) < FirstIndex(xs, r[j]) {
        if j < |prev| {
          assert r[i] == prev[i] && r[j] == prev[j];
          assert FirstIndex(init, prev[i]) < FirstIndex(init, prev[j]);
        } else {
          assert r[i] == prev[i] && r[j] == x;
          assert FirstIndex(init, prev[i]) < |init|;
          assert FirstIndex(xs, x) == |xs| - 1;
        }
      }
    }
  }

  // ---------- filter drop-downs ----------

  datatype FilterOptions = FilterOptions(types: seq<string>, brands: seq<string>)

  function Types(cars: seq<Car>): seq<string> {
    seq(|cars|, i requires 0 <= i < |cars| => cars[i].carType)
  }

  function Brands(cars: seq<Car>): seq<string> {
    seq(|cars|, i requires 0 <= i < |cars| => cars[i].brand)
  }

  /**
   * `populateFilters`: the option lists are duplicate-free and hold exactly
   * the types (brands) some car has.
   */
  function PopulateFilters(cars: seq<Car>): (r: FilterOptions)
    ensures forall t :: t in r.types <==> exists i :: 0 <= i < |cars| && cars[i].carType == t
    ensures forall b :: b in r.brands <==> exists i :: 0 <= i < |cars| && cars[i].brand == b
    ensures forall i, j :: 0 <= i < j < |r.types| ==> r.types[i] != r.types[j]
    ensures forall i, j :: 0 <= i < j < |r.brands| ==> r.brands[i] != r.brands[j]
  {
    var types, brands := Types(cars), Brands(cars);
    assert forall t :: t in types <==> exists i :: 0 <= i < |cars| && cars[i].carType == t by {
      forall t | t in types ensures exists i :: 0 <= i < |cars| && cars[i].carType == t {
        var k :| 0 <= k < |types| && types[k] == t;
        assert cars[k].carType == t;
      }
      forall t | exists i :: 0 <= i < |cars| && cars[i].carType == t ensures t in types {
        var k :| 0 <= k < |cars| && cars[k].carType == t;
        assert types[k] == t;
      }
    }
    assert forall b :: b in brands <==> exists i :: 0 <= i < |cars| && cars[i].brand == b by {
      forall b | b in brands ensures exists i :: 0 <= i < |cars| && cars[i].brand == b {
        var k :| 0 <= k < |brands| && brands[k] == b;
        assert cars[k].brand == b;
      }
      forall b | exists i :: 0 <= i < |cars| && cars[i].brand == b ensures b in brands {
        var k :| 0 <= k < |cars| && cars[k].brand == b;
        assert brands[k] == b;
      }
    }
    FilterOptions(Distinct(types), Distinct(brands))
  }

  /** Both option lists keep the order in which their values first appear in the catalog. */
  lemma PopulateFiltersOrder(cars: seq<Car>)
    ensures var r := PopulateFilters(cars);
      && (forall i, j :: 0 <= i < j < |r.types| ==>
            FirstIndex(Types(cars), r.types[i]) < FirstIndex(Types(cars), r.types[j]))
      && (forall i, j :: 0 <= i < j < |r.brands| ==>
            FirstIndex(Brands(cars), r.brands[i]) < FirstIndex(Brands(cars), r.brands[j]))
  {
    assert PopulateFilters(cars).types == Distinct(Types(cars));
    assert PopulateFilters(cars).brands == Distinct(Brands(cars));
    DistinctKeepsFirstOccurrenceOrder(Types(cars));
    DistinctKeepsFirstOccurrenceOrder(Brands(cars));
  }

  // ---------- search suggestions ----------

  /** The three fields a suggestion can come from, in the order they are tried. */
  function CarFields(car: Car): seq<string> {
    [car.carType, car.brand, car.model]
  }

  /** Every car's type, brand and model, car after car. */
  function Fields(cars: seq<Car>): seq<string> {
    if cars == [] then [] else Fields(cars[..|cars| - 1]) + CarFields(cars[|cars| - 1])
  }

  /** A field is a candidate when its lower-cased form contains the lower-cased input. */
  predicate FieldMatches(field: string, input: string) {
    Includes(ToLower(field), input)
  }

  function MatchingFields(fields: seq<string>, input: string): (r: seq<string>)
    ensures forall f :: f in r <==> f in fields && FieldMatches(f, input)
  {
    if fields == [] then []
    else
      var init, last := fields[..|fields| - 1], fields[|fields| - 1];
      assert fields == init + [last];
      MatchingFields(init, input) + (if FieldMatches(last, input) then [last] else [])
  }

  /**
   * What the pushing loop builds from a list of fields: each field in turn
   * is appended when it matches and is not listed yet.
   */
  function Collect(fields: seq<string>, input: string): seq<string> {
    if fields == [] then []
    else
      var prev, last := Collect(fields[..|fields| - 1], input), fields[|fields| - 1];
      if FieldMatches(last, input) && last !in prev then prev + [last] else prev
  }

  /**
   * The full suggestion list for the search box text: nothing for an empty
   * box, otherwise the matching fields with repeats dropped.
   */
  function Suggestions(cars: seq<Car>, searchText: string): (r: seq<string>)
    ensures ToLower(searchText) == [] ==> r == []
    ensures ToLower(searchText) != [] ==> r == Distinct(MatchingFields(Fields(cars), ToLower(searchText)))
  {
    var input := ToLower(searchText);
    if input == [] then [] else CollectIsDistinctMatches(Fields(cars), input); Collect(Fields(cars), input)
  }

  /** At most this many suggestions are listed. */
  const MaxShown := 5

  /** The slice of the suggestions that is listed. */
  function Shown(suggestions: seq<string>): (r: seq<string>)
    ensures |r| <= MaxShown
    ensures |r| <= |suggestions| && r == suggestions[..|r|]
    ensures |r| == |suggestions| || |r| == MaxShown
  {
    if |suggestions| <= MaxShown then suggestions else suggestions[..MaxShown]
  }

  /** One push of the loop: `Collect` over one more field. */
  lemma CollectStep(seen: seq<string>, field: string, input: string)
    ensures Collect(seen + [field], input)
         == if FieldMatches(field, input) && field !in Collect(seen, input)
            then Collect(seen, input) + [field] else Collect(seen, input)
  {
    assert (seen + [field])[..|seen|] == seen;
  }

  /** Appending one field to the input of `Distinct` after `MatchingFields`. */
  lemma SuggestStep(seen: seq<string>, field: string, input: string)
    ensures Distinct(MatchingFields(seen + [field], input))
         == var prev := Distinct(MatchingFields(seen, input));
            if FieldMatches(field, input) && field !in prev then prev + [field] else prev
  {
    assert (seen + [field])[..|seen|] == seen;
    var m := MatchingFields(seen, input);
    if FieldMatches(field, input) {
      assert (m + [field])[..|m|] == m;
    } else {
      assert m + [] == m;
    }
  }

  /** One step of the outer loop: the next car's fields follow those of the cars before it. */
  lemma FieldsStep(cars: seq<Car>, i: nat)
    requires i < |cars|
    ensures Fields(cars[..i + 1]) == Fields(cars[..i]) + CarFields(cars[i])
  {
    assert cars[..i + 1][..i] == cars[..i];
  }

  /** Pushing new matches one by one is the same as de-duplicating the matching fields. */
  lemma {:induction false} CollectIsDistinctMatches(fields: seq<string>, input: string)
    ensures Collect(fields, input) == Distinct(MatchingFields(fields, input))
  {
    if fields != [] {
      var init, last := fields[..|fields| - 1], fields[|fields| - 1];
      var prev := Distinct(MatchingFields(init, input));
      assert init + [last] == fields;
      calc {
        Collect(fields, input);
        Collect(init + [last], input);
        { CollectStep(init, last, input); CollectIsDistinctMatches(init, input); }
        if FieldMatches(last, input) && last !in prev then prev + [last] else prev;
        { SuggestStep(init, last, input); }
        Distinct(MatchingFields(init + [last], input));
      }
    }
  }

  /**
   * The inner `forEach` over one car's fields: each field is pushed when it
   * matches and is not listed yet. `seen` are the fields visited before.
   */
  method PushMatches(suggestions: seq<string>, fields: seq<string>, input: string, ghost seen: seq<string>)
    returns (r: seq<string>)
    requires suggestions == Collect(seen, input)
    ensures r == Collect(seen + fields, input)
  {
    r := suggestions;
    var j := 0;
    assert seen + fields[..0] == seen;
    while j < |fields|
      invariant 0 <= j <= |fields|
      invariant r == Collect(seen + fields[..j], input)
    {
      var field := fields[j];
      CollectStep(seen + fields[..j], field, input);
      assert seen + fields[..j + 1] == (seen + fields[..j]) + [field];
      if FieldMatches(field, input) && field !in r {
        r := r + [field];
      }
      j := j + 1;
    }
    assert fields[..|fields|] == fields;
  }

  /**
   * The `input` handler of the search box: builds the suggestion list with
   * the two nested loops of the source, lists at most five entries and shows
   * the list only when there is at least one suggestion.
   */
  method BuildSuggestions(cars: seq<Car>, searchText: string)
    returns (suggestions: seq<string>, shown: seq<string>, visible: bool)
    ensures suggestions == Suggestions(cars, searchText)
    ensures shown == Shown(suggestions)
    ensures visible <==> suggestions != []
  {
    var input := ToLower(searchText);
    suggestions := [];
    if |input| > 0 {
      var i := 0;
      while i < |cars|
        invariant 0 <= i <= |cars|
        invariant suggestions == Collect(Fields(cars[..i]), input)
      {
        FieldsStep(cars, i);
        suggestions := PushMatches(suggestions, CarFields(cars[i]), input, Fields(cars[..i]));
        i := i + 1;
      }
      assert cars[..|cars|] == cars;
    }
    shown := if |suggestions| <= MaxShown then suggestions else suggestions[..MaxShown];
    visible := |suggestions| > 0;
  }

  /** A string is a field value exactly when it is the type, brand or model of some car. */
  lemma {:induction false} FieldsAreCarFields(cars: seq<Car>, f: string)
    ensures f in Fields(cars) <==> exists i :: 0 <= i < |cars| && f in CarFields(cars[i])
  {
    if cars != [] {
      var init, c := cars[..|cars| - 1], cars[|cars| - 1];
      FieldsAreCarFields(init, f);
      assert Fields(cars) == Fields(init) + CarFields(c);
      if f in Fields(init) {
        var i :| 0 <= i < |init| && f in CarFields(init[i]);
        assert cars[i] == init[i];
      } else if f !in CarFields(c) {
        forall i | 0 <= i < |cars| ensures f !in CarFields(cars[i]) {
          if i < |init| {
            assert cars[i] == init[i];
          }
        }
      }
    }
  }

  /** Keeping only matching fields does not reorder first occurrences. */
  lemma {:induction false} MatchingFieldsKeepsOrder(fields: seq<string>, input: string, x: string, y: string)
    requires x in MatchingFields(fields, input) && y in MatchingFields(fields, input)
    requires FirstIndex(MatchingFields(fields, input), x) < FirstIndex(MatchingFields(fields, input), y)
    ensures FirstIndex(fields, x) < FirstIndex(fields, y)
  {
    var n := |fields| - 1;
    var init, last := fields[..n], fields[n];
    var prev, r := MatchingFields(init, input), MatchingFields(fields, input);
    assert r == prev + (if FieldMatches(last, input) then [last] else []);
    assert r[..|prev|] == prev;
    if x in init {
      assert x in prev;
      FirstIndexInPrefix(r, |prev|, x);
      FirstIndexInPrefix(fields, n, x);
    }
    if y in init {
      assert y in prev;
      FirstIndexInPrefix(r, |prev|, y);
      FirstIndexInPrefix(fields, n, y);
    }
    if x in init && y in init {
      MatchingFieldsKeepsOrder(init, input, x, y);
    } else if y !in init {
      // y first occurs at the end of the fields, after x
      forall j | 0 <= j < n ensures fields[j] != y {
        assert init[j] == fields[j];
      }
      FirstIndexIs(fields, y, n);
    }
    // otherwise x first occurs at the end of the fields, so it is the last
    // matching field and cannot come before y
  }

  /**
   * The suggestions: none for an empty box; otherwise exactly the field
   * values (type, brand or model of some car) whose lower-cased form
   * contains the lower-cased input, each once, in the order in which they
   * are first met going car by car and type, brand, model within a car.
   */
  lemma SuggestionsAreOrderedMatches(cars: seq<Car>, searchText: string)
    ensures searchText == [] ==> Suggestions(cars, searchText) == []
    ensures forall f :: f in Suggestions(cars, searchText) <==>
              searchText != [] && f in Fields(cars) && FieldMatches(f, ToLower(searchText))
    ensures forall i, j :: 0 <= i < j < |Suggestions(cars, searchText)| ==>
              Suggestions(cars, searchText)[i] != Suggestions(cars, searchText)[j]
    ensures forall i, j :: 0 <= i < j < |Suggestions(cars, searchText)| ==>
              FirstIndex(Fields(cars), Suggestions(cars, searchText)[i])
              < FirstIndex(Fields(cars), Suggestions(cars, searchText)[j])
  {
    var input := ToLower(searchText);
    if input != [] {
      var m := MatchingFields(Fields(cars), input);
      var r := Distinct(m);
      CollectIsDistinctMatches(Fields(cars), input);
      DistinctKeepsFirstOccurrenceOrder(m);
      forall i, j | 0 <= i < j < |r| ensures FirstIndex(Fields(cars), r[i]) < FirstIndex(Fields(cars), r[j]) {
        MatchingFieldsKeepsOrder(Fields(cars), input, r[i], r[j]);
      }
    }
  }
}
