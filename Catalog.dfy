/**
 * The catalog of documents and the title search over it (App.js:10-11,
 * 23-24, 33-38).
 */
module Catalog {
  import opened Text

  /** One catalog entry; `key` is both the row identity and the document's address. */
  datatype Item = Item(key: string, title: string, year: string, url: string)

  /** The search predicate: the lower-cased title contains the lower-cased query. */
  predicate Matches(item: Item, query: string)
    ensures Matches(item, query) <==> exists i :: OccursAt(Lower(item.title), Lower(query), i)
  {
    IncludesIff(Lower(item.title), Lower(query));
    Includes(Lower(item.title), Lower(query))
  }

  /** `data.filter(item => Matches(item, query))`, keeping the order of `data`. */
  function Filter(data: seq<Item>, query: string): (r: seq<Item>)
    ensures |r| <= |data|
  {
    if data == [] then []
    else (if Matches(data[0], query) then [data[0]] else []) + Filter(data[1..], query)
  }

  /** `r` is `s` with some elements dropped and the rest kept in order. */
  ghost predicate IsSubsequence(r: seq<Item>, s: seq<Item>)
    decreases |s|
  {
    if r == [] then true
    else if s == [] then false
    else (r[0] == s[0] && IsSubsequence(r[1..], s[1..])) || IsSubsequence(r, s[1..])
  }

  /** An item is in the search result exactly when it is in the catalog and matches. */
  lemma {:induction false} FilterMembership(data: seq<Item>, query: string, x: Item)
    ensures x in Filter(data, query) <==> x in data && Matches(x, query)
  {
    if data != [] {
      FilterMembership(data[1..], query, x);
      assert data == [data[0]] + data[1..];
    }
  }

  /** Each matching item appears as often as in the catalog, each other item not at all. */
  lemma {:induction false} FilterCount(data: seq<Item>, query: string, x: Item)
    ensures multiset(Filter(data, query))[x] == if Matches(x, query) then multiset(data)[x] else 0
  {
    if data != [] {
      FilterCount(data[1..], query, x);
      assert data == [data[0]] + data[1..];
    }
  }

  /** The search result keeps the catalog's order: it is a subsequence of it. */
  lemma {:induction false} FilterIsSubsequence(data: seq<Item>, query: string)
    ensures IsSubsequence(Filter(data, query), data)
  {
    if data != [] {
      FilterIsSubsequence(data[1..], query);
      var rest := Filter(data[1..], query);
      if Matches(data[0], query) {
        assert Filter(data, query) == [data[0]] + rest;
        assert ([data[0]] + rest)[1..] == rest;
      } else {
        assert Filter(data, query) == rest;
        if rest != [] {
          assert IsSubsequence(rest, data[1..]);
        }
      }
    }
  }

  /** Searching a concatenation searches each part. */
  lemma {:induction false} FilterAppend(a: seq<Item>, b: seq<Item>, query: string)
    ensures Filter(a + b, query) == Filter(a, query) + Filter(b, query)
  {
    if a != [] {
      FilterAppend(a[1..], b, query);
      assert (a + b)[1..] == a[1..] + b;
    } else {
      assert a + b == b;
    }
  }

  /** When every item matches, the search returns the catalog unchanged. */
  lemma {:induction false} FilterAllMatch(data: seq<Item>, query: string)
    requires forall x :: x in data ==> Matches(x, query)
    ensures Filter(data, query) == data
  {
    if data != [] {
      assert forall x :: x in data[1..] ==> x in data;
      FilterAllMatch(data[1..], query);
      assert data == [data[0]] + data[1..];
    }
  }

  /** The empty query (a cleared search box) matches every title. */
  lemma FilterEmptyQuery(data: seq<Item>)
    ensures Filter(data, "") == data
  {
    forall x | x in data ensures Matches(x, "") {
      assert Lower("") == "";
    }
    FilterAllMatch(data, "");
  }

  /** Searching the result again with the same query changes nothing. */
  lemma FilterIdempotent(data: seq<Item>, query: string)
    ensures Filter(Filter(data, query), query) == Filter(data, query)
  {
    var r := Filter(data, query);
    forall x | x in r ensures Matches(x, query) {
      FilterMembership(data, query, x);
    }
    FilterAllMatch(r, query);
  }

  /** The search ignores the case of ASCII letters in the query. */
  lemma {:induction false} FilterCaseInsensitive(data: seq<Item>, q1: string, q2: string)
    requires Lower(q1) == Lower(q2)
    ensures Filter(data, q1) == Filter(data, q2)
  {
    if data != [] {
      FilterCaseInsensitive(data[1..], q1, q2);
    }
  }

  /**
   * The displayed catalog: `data` holds what was fetched, `filteredData`
   * what the table shows. The ghost `query` is the search that produced
   * `filteredData` ("" right after loading).
   */
  class View {
    var data: seq<Item>
    var filteredData: seq<Item>
    ghost var query: string

    /** The table always shows the catalog filtered by some query. */
    ghost predicate Valid()
      reads this
    {
      filteredData == Filter(data, query)
    }

    /** Both lists start empty (App.js:10-11). */
    constructor ()
      ensures Valid()
      ensures data == [] && filteredData == []
    {
      data := [];
      filteredData := [];
      query := "";
    }

    /** The catalog fetch succeeded with `response`: both lists are replaced by it (App.js:23-24). */
    method Loaded(response: seq<Item>)
      modifies this
      ensures Valid()
      ensures data == response && filteredData == response && query == ""
    {
      data := response;
      filteredData := response;
      query := "";
      FilterEmptyQuery(response);
    }

    /** `handleSearch(value)`: filters the full catalog, never the previous result (App.js:33-38). */
    method HandleSearch(value: string)
      modifies this
      ensures Valid()
      ensures data == old(data)
      ensures filteredData == Filter(data, value) && query == value
    {
      filteredData := Filter(data, value);
      query := value;
    }
  }

  /** The table only ever shows catalog items, in catalog order, and each shown item matches the last search. */
  lemma ShownItemsComeFromCatalog(v: View, x: Item)
    requires v.Valid()
    ensures IsSubsequence(v.filteredData, v.data)
    ensures x in v.filteredData <==> x in v.data && Matches(x, v.query)
  {
    FilterIsSubsequence(v.data, v.query);
    FilterMembership(v.data, v.query, x);
  }

  /** A two-item catalog: "learning" finds only the first title, "zzz" finds nothing. */
  lemma SearchExample()
    ensures var ml := Item("https://x/doc1", "Machine Learning", "2020", "t1");
            var dn := Item("https://x/doc2", "Deep Networks", "2019", "t2");
            Filter([ml, dn], "learning") == [ml] && Filter([ml, dn], "zzz") == []
  {
    var ml := Item("https://x/doc1", "Machine Learning", "2020", "t1");
    var dn := Item("https://x/doc2", "Deep Networks", "2019", "t2");
    FirstTitleMatches(ml);
    SecondTitleLacks(dn, "learning");
    FirstTitleLacks(ml);
    SecondTitleLacks(dn, "zzz");
    FilterPair(ml, dn, "learning");
    FilterPair(ml, dn, "zzz");
  }

  lemma FilterPair(a: Item, b: Item, query: string)
    ensures Filter([a, b], query) == (if Matches(a, query) then [a] else []) + (if Matches(b, query) then [b] else [])
  {
    assert [a, b][1..] == [b];
  }

  lemma FirstTitleMatches(ml: Item)
    requires ml.title == "Machine Learning"
    ensures Matches(ml, "learning")
  {
    LowerExamples();
    IncludesAt("machine learning", "learning", 8);
  }

  lemma FirstTitleLacks(ml: Item)
    requires ml.title == "Machine Learning"
    ensures !Matches(ml, "zzz")
  {
    LowerExamples();
    NotIncludesFirst("machine learning", "zzz");
  }

  lemma SecondTitleLacks(dn: Item, query: string)
    requires dn.title == "Deep Networks" && query in {"learning", "zzz"}
    ensures !Matches(dn, query)
  {
    LowerExamples();
    NotIncludesFirst("deep networks", query);
  }

  lemma LowerExamples()
    ensures Lower("learning") == "learning" && Lower("zzz") == "zzz"
    ensures Lower("Machine Learning") == "machine learning"
    ensures Lower("Deep Networks") == "deep networks"
  {
  }
}
