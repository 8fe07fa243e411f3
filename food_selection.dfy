/**
 * The search screen (app/food-selection.tsx): the list of foods is narrowed,
 * on every keystroke, to the records whose lower-cased name includes the
 * lower-cased query, and a "No food item found" line is shown when nothing is
 * left.
 */
module FoodSelection {
  import opened Text

  /** The shape the search screen gives each record of the bundled dataset. */
  datatype Food = Food(id: int, name: string, category: string)

  /** The search predicate: the lower-cased name includes the lower-cased query. */
  predicate Matches(item: Food, query: string)
    ensures query == "" ==> Matches(item, query)
    ensures Matches(item, query) ==> |query| <= |item.name|
  {
    Contains(Lower(item.name), Lower(query))
  }

  /** The search result: the matching records, in list order. */
  function Filter(foods: seq<Food>, query: string): (r: seq<Food>)
    ensures |r| <= |foods|
    ensures forall x :: x in r ==> x in foods && Matches(x, query)
    ensures forall x :: x in foods && Matches(x, query) ==> x in r
  {
    if foods == [] then []
    else (if Matches(foods[0], query) then [foods[0]] else []) + Filter(foods[1..], query)
  }

  /** `r` is `s` with some elements dropped and the rest kept in order. */
  predicate IsSubsequence<T(==)>(r: seq<T>, s: seq<T>)
    decreases |s|
  {
    r == [] || (s != [] && ((r[0] == s[0] && IsSubsequence(r[1..], s[1..])) || IsSubsequence(r, s[1..])))
  }

  /** The filtered list is a subsequence of the dataset: order is preserved. */
  lemma {:induction false} FilterIsSubsequence(foods: seq<Food>, query: string)
    ensures IsSubsequence(Filter(foods, query), foods)
  {
    if foods != [] {
      FilterIsSubsequence(foods[1..], query);
      var r := Filter(foods, query);
      if Matches(foods[0], query) {
        assert r[1..] == Filter(foods[1..], query);
      } else {
        assert r == Filter(foods[1..], query);
      }
    }
  }

  /** Each matching record is kept as many times as it occurs; every other record is dropped. */
  lemma {:induction false} FilterCounts(foods: seq<Food>, query: string, x: Food)
    ensures multiset(Filter(foods, query))[x] == if Matches(x, query) then multiset(foods)[x] else 0
  {
    if foods != [] {
      var a, rest := foods[0], Filter(foods[1..], query);
      FilterCounts(foods[1..], query, x);
      assert foods == [a] + foods[1..];
      assert multiset(foods)[x] == multiset([a])[x] + multiset(foods[1..])[x];
      if Matches(a, query) {
        assert Filter(foods, query) == [a] + rest;
        assert multiset(Filter(foods, query))[x] == multiset([a])[x] + multiset(rest)[x];
      } else {
        assert Filter(foods, query) == rest;
      }
    }
  }

  /** A subsequence has no more copies of any value than the sequence it comes from. */
  lemma {:induction false} SubsequenceCounts<T>(r: seq<T>, s: seq<T>, x: T)
    requires IsSubsequence(r, s)
    ensures multiset(r)[x] <= multiset(s)[x]
    decreases |s|
  {
    if r != [] {
      assert s == [s[0]] + s[1..];
      if r[0] == s[0] && IsSubsequence(r[1..], s[1..]) {
        SubsequenceCounts(r[1..], s[1..], x);
        assert r == [r[0]] + r[1..];
      } else {
        SubsequenceCounts(r, s[1..], x);
      }
    }
  }

  /**
   * The three facts above determine the filter: any subsequence of the dataset
   * that keeps exactly the matching records, with their multiplicities, is
   * the filtered list.
   */
  lemma {:induction false} FilterUnique(foods: seq<Food>, query: string, r: seq<Food>)
    requires IsSubsequence(r, foods)
    requires forall x :: multiset(r)[x] == if Matches(x, query) then multiset(foods)[x] else 0
    ensures r == Filter(foods, query)
  {
    if foods != [] {
      var a, rest := foods[0], foods[1..];
      assert foods == [a] + rest;
      assert forall x :: multiset(foods)[x] == multiset([a])[x] + multiset(rest)[x];
      if Matches(a, query) {
        assert multiset(r)[a] == multiset(rest)[a] + 1;
        if !(r[0] == a && IsSubsequence(r[1..], rest)) {
          SubsequenceCounts(r, rest, a);
        }
        assert r == [a] + r[1..];
        assert forall x :: multiset(r)[x] == multiset([a])[x] + multiset(r[1..])[x];
        FilterUnique(rest, query, r[1..]);
        assert Filter(foods, query) == [a] + Filter(rest, query);
      } else {
        assert a !in multiset(r);
        assert r != [] ==> r[0] != a;
        FilterUnique(rest, query, r);
        assert Filter(foods, query) == Filter(rest, query);
      }
    }
  }

  /** A filter whose records all match keeps the list as it is. */
  lemma {:induction false} FilterAllMatching(foods: seq<Food>, query: string)
    requires forall i :: 0 <= i < |foods| ==> Matches(foods[i], query)
    ensures Filter(foods, query) == foods
  {
    if foods != [] {
      FilterAllMatching(foods[1..], query);
      assert foods == [foods[0]] + foods[1..];
    }
  }

  /** The initial, empty query shows the whole list. */
  lemma FilterEmptyQuery(foods: seq<Food>)
    ensures Filter(foods, "") == foods
  {
    forall i | 0 <= i < |foods| ensures Matches(foods[i], "") {
      ContainsEmpty(Lower(foods[i].name));
    }
    FilterAllMatching(foods, "");
  }

  /** Filtering the result again with the same query changes nothing. */
  lemma FilterIdempotent(foods: seq<Food>, query: string)
    ensures Filter(Filter(foods, query), query) == Filter(foods, query)
  {
    var r := Filter(foods, query);
    assert forall i :: 0 <= i < |r| ==> r[i] in r;
    FilterAllMatching(r, query);
  }

  /** The query's letter case does not matter. */
  lemma {:induction false} FilterQueryCaseInsensitive(foods: seq<Food>, query: string)
    ensures Filter(foods, query) == Filter(foods, Lower(query))
  {
    LowerIdempotent(query);
    if foods != [] {
      FilterQueryCaseInsensitive(foods[1..], query);
    }
  }

  /** What the screen shows for the current query. */
  datatype SearchView = SearchView(noResultsMessage: bool, grid: seq<Food>)

  /** The screen: the grid is the filtered list, and the message appears when it is empty. */
  function SearchScreen(foods: seq<Food>, query: string): (v: SearchView)
    ensures v.grid == Filter(foods, query)
    ensures v.noResultsMessage <==> |v.grid| == 0
    ensures v.noResultsMessage <==> forall i :: 0 <= i < |foods| ==> !Matches(foods[i], query)
  {
    var filtered := Filter(foods, query);
    assert forall i :: 0 <= i < |foods| ==> foods[i] in foods;
    assert filtered != [] ==> filtered[0] in filtered;
    SearchView(|filtered| == 0, filtered)
  }

  /** With the empty query the message appears only for an empty dataset. */
  lemma SearchScreenEmptyQuery(foods: seq<Food>)
    ensures SearchScreen(foods, "").grid == foods
    ensures SearchScreen(foods, "").noResultsMessage <==> foods == []
  {
    FilterEmptyQuery(foods);
  }

  /** "idli" does not include "o": no start position matches. */
  lemma IdliHasNoO()
    ensures !Contains(Lower("Idli"), Lower("o"))
  {
    assert Lower("o") == "o";
    assert Lower("Idli") == "idli";
    assert !Contains("", "o");
    assert "i"[1..] == "" && !Contains("i", "o");
    assert "li"[1..] == "i" && !Contains("li", "o");
    assert "dli"[1..] == "li" && !Contains("dli", "o");
    assert "idli"[1..] == "dli" && !StartsWith("idli", "o");
  }

  /** "dosa" and "poha" include "o" at position 1. */
  lemma DosaAndPohaHaveO()
    ensures Contains(Lower("Dosa"), Lower("o"))
    ensures Contains(Lower("Poha"), Lower("o"))
  {
    assert Lower("o") == "o";
    assert Lower("Dosa") == "dosa" && Lower("Poha") == "poha";
    assert "dosa"[1..] == "osa" && StartsWith("osa", "o");
    assert "poha"[1..] == "oha" && StartsWith("oha", "o");
  }

  /** The worked example: "o" finds Dosa and Poha, in that order, and not Idli. */
  lemma ExampleSearch()
    ensures Filter([Food(1, "Idli", "Breakfast"), Food(2, "Dosa", "Breakfast"), Food(3, "Poha", "Breakfast")], "o")
         == [Food(2, "Dosa", "Breakfast"), Food(3, "Poha", "Breakfast")]
  {
    var idli, dosa, poha := Food(1, "Idli", "Breakfast"), Food(2, "Dosa", "Breakfast"), Food(3, "Poha", "Breakfast");
    IdliHasNoO();
    DosaAndPohaHaveO();
    assert [idli, dosa, poha][1..] == [dosa, poha] && [dosa, poha][1..] == [poha] && [poha][1..] == [];
  }
}
