/**
 * The two tables shown to the user: the work-in-progress table (open rows,
 * most severe and then oldest first) and the detail explorer (search
 * results, most recently updated first). Both are sorts by a pair of
 * integer keys, descending.
 */
module Ordering {

  import opened Basics
  import opened Text
  import opened Issues
  import opened TextSearch

  /** Lexicographic `>=` on key pairs. */
  predicate KeyGe(a: (int, int), b: (int, int)) {
    a.0 > b.0 || (a.0 == b.0 && a.1 >= b.1)
  }

  ghost predicate SortedDesc(rows: seq<Issue>, key: Issue -> (int, int)) {
    forall i, j :: 0 <= i < j < |rows| ==> KeyGe(key(rows[i]), key(rows[j]))
  }

  /** Putting a row in front of a sorted table whose first row it does not precede keeps it sorted. */
  lemma SortedCons(h: Issue, t: seq<Issue>, key: Issue -> (int, int))
    requires SortedDesc(t, key)
    requires t == [] || KeyGe(key(h), key(t[0]))
    ensures SortedDesc([h] + t, key)
  {
    var s := [h] + t;
    forall i, j | 0 <= i < j < |s| ensures KeyGe(key(s[i]), key(s[j])) {
      if i == 0 && j > 1 {
        assert KeyGe(key(t[0]), key(t[j - 1]));
      }
    }
  }

  function Insert(x: Issue, rows: seq<Issue>, key: Issue -> (int, int)): (out: seq<Issue>)
    requires SortedDesc(rows, key)
    ensures SortedDesc(out, key)
    ensures multiset(out) == multiset(rows) + multiset{x}
    ensures out[0] == x || (rows != [] && out[0] == rows[0])
  {
    if rows == [] || KeyGe(key(x), key(rows[0])) then
      SortedCons(x, rows, key);
      [x] + rows
    else
      assert SortedDesc(rows[1..], key);
      var tail := Insert(x, rows[1..], key);
      assert rows == [rows[0]] + rows[1..];
      SortedCons(rows[0], tail, key);
      [rows[0]] + tail
  }

  /** `sort_values(..., ascending=False)` on a pair of keys: a descending rearrangement of the rows. */
  function SortDesc(rows: seq<Issue>, key: Issue -> (int, int)): (out: seq<Issue>)
    ensures SortedDesc(out, key)
    ensures multiset(out) == multiset(rows)
  {
    if rows == [] then []
    else
      assert rows == [rows[0]] + rows[1..];
      Insert(rows[0], SortDesc(rows[1..], key), key)
  }

  /** The rows of `s` whose key is `k`, in their order in `s`. */
  function WithKey(s: seq<Issue>, key: Issue -> (int, int), k: (int, int)): seq<Issue> {
    if s == [] then []
    else (if key(s[0]) == k then [s[0]] else []) + WithKey(s[1..], key, k)
  }

  lemma WithKeyCons(h: Issue, t: seq<Issue>, key: Issue -> (int, int), k: (int, int))
    ensures WithKey([h] + t, key, k) == (if key(h) == k then [h] else []) + WithKey(t, key, k)
  {
    assert ([h] + t)[1..] == t;
  }

  /** Insertion puts the new row in front of the rows with the same key. */
  lemma {:induction false} InsertWithKey(x: Issue, rows: seq<Issue>, key: Issue -> (int, int), k: (int, int))
    requires SortedDesc(rows, key)
    ensures WithKey(Insert(x, rows, key), key, k) == (if key(x) == k then [x] else []) + WithKey(rows, key, k)
  {
    var mine: seq<Issue> := if key(x) == k then [x] else [];
    if rows == [] || KeyGe(key(x), key(rows[0])) {
      WithKeyCons(x, rows, key, k);
    } else {
      assert SortedDesc(rows[1..], key);
      var tail := Insert(x, rows[1..], key);
      var head: seq<Issue> := if key(rows[0]) == k then [rows[0]] else [];
      InsertWithKey(x, rows[1..], key, k);
      WithKeyCons(rows[0], tail, key, k);
      assert key(x) != key(rows[0]);
      assert head + mine == mine + head;
      calc {
        WithKey(Insert(x, rows, key), key, k);
        WithKey([rows[0]] + tail, key, k);
        head + (mine + WithKey(rows[1..], key, k));
        mine + (head + WithKey(rows[1..], key, k));
        mine + WithKey(rows, key, k);
      }
    }
  }

  /** Rows with equal keys keep their relative order: the sort is stable. */
  lemma {:induction false} SortDescStable(rows: seq<Issue>, key: Issue -> (int, int), k: (int, int))
    ensures WithKey(SortDesc(rows, key), key, k) == WithKey(rows, key, k)
  {
    if rows != [] {
      SortDescStable(rows[1..], key, k);
      InsertWithKey(rows[0], SortDesc(rows[1..], key), key, k);
    }
  }

  lemma SortStable(rows: seq<Issue>, key: Issue -> (int, int))
    ensures forall k :: WithKey(SortDesc(rows, key), key, k) == WithKey(rows, key, k)
  {
    forall k ensures WithKey(SortDesc(rows, key), key, k) == WithKey(rows, key, k) {
      SortDescStable(rows, key, k);
    }
  }

  function OpenRows(rows: seq<Issue>): (out: seq<Issue>)
    ensures forall r :: r in out <==> r in rows && IsOpen(r)
    ensures forall r :: multiset(out)[r] == if IsOpen(r) then multiset(rows)[r] else 0
    ensures SubsequenceOf(out, rows)
  {
    if rows == [] then []
    else
      assert rows == [rows[0]] + rows[1..];
      if IsOpen(rows[0]) then [rows[0]] + OpenRows(rows[1..]) else OpenRows(rows[1..])
  }

  // ---------------------------------------------------------------------
  // Work-in-progress table

  /**
   * Code of a severity in the categorical the loader builds: pandas gives
   * a category column built from strings its categories in string order,
   * "Critical" < "High" < "Low" < "Medium".
   */
  function LexicalCode(s: Severity): nat {
    match s
    case Critical => 0
    case High => 1
    case Low => 2
    case Medium => 3
  }

  /** The category codes follow the string order of the severity names. */
  lemma LexicalCodeIsNameOrder(a: Severity, b: Severity)
    ensures LexicalCode(a) < LexicalCode(b) <==> StrLess(SeverityName(a), SeverityName(b))
  {
    if a == b {
      StrLessIrreflexive(SeverityName(a));
    }
  }

  /** The source's sort key for the WIP table: category code of the severity, then age. */
  function WipKeyAsWritten(r: Issue): (int, int) {
    (LexicalCode(r.severity), r.ageDays)
  }

  /** The WIP table as the source computes it. */
  function WipTableAsWritten(rows: seq<Issue>): (out: seq<Issue>)
    ensures multiset(out) == multiset(OpenRows(rows))
    ensures SortedDesc(out, WipKeyAsWritten)
    ensures forall k :: WithKey(out, WipKeyAsWritten, k) == WithKey(OpenRows(rows), WipKeyAsWritten, k)
  {
    var out := SortDesc(OpenRows(rows), WipKeyAsWritten);
    SortStable(OpenRows(rows), WipKeyAsWritten);
    out
  }

  /**
   * The discrepancy: with one open Critical and one open Medium issue, the
   * table as written lists the Medium issue first, whatever their ages.
   */
  lemma WipAsWrittenPutsMediumFirst(c: Issue, m: Issue)
    requires IsOpen(c) && c.severity == Critical
    requires IsOpen(m) && m.severity == Medium
    ensures WipTableAsWritten([c, m]) == [m, c]
  {
    assert [c, m][1..] == [m];
    assert OpenRows([c, m]) == [c, m];
  }

  /** Sort key of the WIP table: severity from most to least severe, then age. */
  function WipKey(r: Issue): (int, int) {
    (SeverityRank(r.severity), r.ageDays)
  }

  lemma SameMembers(a: seq<Issue>, b: seq<Issue>)
    requires multiset(a) == multiset(b)
    ensures forall r :: r in a <==> r in b
  {
    assert forall r :: r in a <==> r in multiset(b);
  }

  /** Sorted by `WipKey`: the more severe first and, within one severity, the older first. */
  lemma WipOrder(out: seq<Issue>)
    requires SortedDesc(out, WipKey)
    ensures forall i, j :: 0 <= i < j < |out| ==>
      || SeverityRank(out[i].severity) > SeverityRank(out[j].severity)
      || (out[i].severity == out[j].severity && out[i].ageDays >= out[j].ageDays)
  {
    forall i, j | 0 <= i < j < |out|
      ensures || SeverityRank(out[i].severity) > SeverityRank(out[j].severity)
              || (out[i].severity == out[j].severity && out[i].ageDays >= out[j].ageDays)
    {
      assert KeyGe(WipKey(out[i]), WipKey(out[j]));
    }
  }

  /**
   * The work-in-progress table: exactly the open rows, the more severe
   * before the less severe, and within one severity the older first.
   */
  function WipTable(rows: seq<Issue>): (out: seq<Issue>)
    ensures multiset(out) == multiset(OpenRows(rows))
    ensures forall r :: r in out <==> r in rows && IsOpen(r)
    ensures forall i, j :: 0 <= i < j < |out| ==>
      || SeverityRank(out[i].severity) > SeverityRank(out[j].severity)
      || (out[i].severity == out[j].severity && out[i].ageDays >= out[j].ageDays)
    ensures forall k :: WithKey(out, WipKey, k) == WithKey(OpenRows(rows), WipKey, k)
  {
    var out := SortDesc(OpenRows(rows), WipKey);
    SortStable(OpenRows(rows), WipKey);
    SameMembers(out, OpenRows(rows));
    WipOrder(out);
    out
  }

  /** With one open Critical and one open Medium issue, the WIP table lists the Critical one first. */
  lemma WipPutsCriticalFirst(c: Issue, m: Issue)
    requires IsOpen(c) && c.severity == Critical
    requires IsOpen(m) && m.severity == Medium
    ensures WipTable([c, m]) == [c, m]
  {
    assert [c, m][1..] == [m];
    assert OpenRows([c, m]) == [c, m];
  }

  // ---------------------------------------------------------------------
  // Detail explorer

  function UpdatedKey(r: Issue): (int, int) {
    (r.updatedAt, 0)
  }

  /**
   * The detail explorer: the search result, most recently updated first.
   * The order among rows updated at the same instant is not specified.
   */
  function DetailTable(rows: seq<Issue>, q: string): (out: seq<Issue>)
    ensures multiset(out) == multiset(Search(rows, q))
    ensures forall i, j :: 0 <= i < j < |out| ==> out[i].updatedAt >= out[j].updatedAt
  {
    var out := SortDesc(Search(rows, q), UpdatedKey);
    assert forall i, j :: 0 <= i < j < |out| ==> KeyGe(UpdatedKey(out[i]), UpdatedKey(out[j]));
    out
  }
}
