/**
 * The detail explorer's free-text search: a non-empty query keeps the rows
 * whose issue id, notes or item id contain it, ignoring case.
 */
module TextSearch {

  import opened Basics
  import opened Text
  import opened Issues
  import opened Filters

  /** The row-wise predicate: the lower-cased query occurs in one of the three lower-cased columns. */
  predicate Matches(r: Issue, q: string) {
    var ql := Lower(q);
    Contains(Lower(r.issueId), ql) || Contains(Lower(r.notes), ql) || Contains(Lower(r.itemId), ql)
  }

  function KeepMatching(rows: seq<Issue>, q: string): seq<Issue> {
    if rows == [] then []
    else if Matches(rows[0], q) then [rows[0]] + KeepMatching(rows[1..], q)
    else KeepMatching(rows[1..], q)
  }

  /** `if q:` the table is narrowed to the matching rows; an empty query leaves it alone. */
  function Search(rows: seq<Issue>, q: string): (out: seq<Issue>)
    ensures q == "" ==> out == rows
  {
    if q == "" then rows else KeepMatching(rows, q)
  }

  /**
   * With a non-empty query, a row is in the result exactly when it is in
   * the table and the lower-cased query is a substring of its lower-cased
   * issue id, notes or item id.
   */
  lemma {:induction false} SearchMembers(rows: seq<Issue>, q: string, r: Issue)
    requires q != ""
    ensures r in Search(rows, q) <==>
      r in rows &&
      (Contains(Lower(r.issueId), Lower(q)) || Contains(Lower(r.notes), Lower(q)) || Contains(Lower(r.itemId), Lower(q)))
  {
    KeepMatchingMembers(rows, q, r);
  }

  /**
   * With a non-empty query, every matching row is kept as often as it
   * occurs in the table, and no other row is kept.
   */
  lemma SearchCounts(rows: seq<Issue>, q: string, r: Issue)
    requires q != ""
    ensures multiset(Search(rows, q))[r] == if Matches(r, q) then multiset(rows)[r] else 0
  {
    KeepMatchingCounts(rows, q, r);
  }

  lemma {:induction false} KeepMatchingCounts(rows: seq<Issue>, q: string, r: Issue)
    ensures multiset(KeepMatching(rows, q))[r] == if Matches(r, q) then multiset(rows)[r] else 0
  {
    if rows != [] {
      assert rows == [rows[0]] + rows[1..];
      KeepMatchingCounts(rows[1..], q, r);
    }
  }

  /** Searching the filtered table yields rows in the order of the loaded table. */
  lemma SearchOfFilteredIsSubsequence(rows: seq<Issue>, sel: Selection, q: string)
    ensures SubsequenceOf(Search(Filtered(rows, sel), q), rows)
  {
    SearchIsSubsequence(Filtered(rows, sel), q);
    FilteredIsSubsequence(rows, sel);
    SubsequenceTransitive(Search(Filtered(rows, sel), q), Filtered(rows, sel), rows);
  }

  lemma {:induction false} KeepMatchingMembers(rows: seq<Issue>, q: string, r: Issue)
    ensures r in KeepMatching(rows, q) <==> r in rows && Matches(r, q)
  {
    if rows != [] {
      KeepMatchingMembers(rows[1..], q, r);
      assert r in rows <==> r == rows[0] || r in rows[1..];
    }
  }

  /** The search result keeps its rows in table order and drops nothing else. */
  lemma {:induction false} SearchIsSubsequence(rows: seq<Issue>, q: string)
    ensures SubsequenceOf(Search(rows, q), rows)
  {
    if q == "" {
      SubsequenceReflexive(rows);
    } else {
      KeepMatchingIsSubsequence(rows, q);
    }
  }

  lemma {:induction false} KeepMatchingIsSubsequence(rows: seq<Issue>, q: string)
    ensures SubsequenceOf(KeepMatching(rows, q), rows)
  {
    if rows != [] {
      KeepMatchingIsSubsequence(rows[1..], q);
    }
  }

  /** The search ignores the case of the query. */
  lemma {:induction false} SearchCaseInsensitive(rows: seq<Issue>, q: string)
    ensures Search(rows, Lower(q)) == Search(rows, q)
  {
    LowerIdempotent(q);
    if q != "" {
      assert Lower(q) != "";
      KeepMatchingCaseInsensitive(rows, q);
    }
  }

  lemma {:induction false} KeepMatchingCaseInsensitive(rows: seq<Issue>, q: string)
    requires Lower(Lower(q)) == Lower(q)
    ensures KeepMatching(rows, Lower(q)) == KeepMatching(rows, q)
  {
    if rows != [] {
      KeepMatchingCaseInsensitive(rows[1..], q);
    }
  }

  /** A row whose notes contain the query verbatim is always found. */
  lemma NotesHitIsFound(rows: seq<Issue>, q: string, r: Issue)
    requires r in rows && Contains(r.notes, q)
    ensures r in Search(rows, q)
  {
    if q != "" {
      ContainsLower(r.notes, q);
      SearchMembers(rows, q, r);
    }
  }
}
