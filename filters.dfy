/**
 * The sidebar filter stage: five optional membership filters (course, unit,
 * status, severity, assignee). An empty selection places no restriction;
 * the non-empty ones are applied one after the other, so they are ANDed.
 */
module Filters {

  import opened Basics
  import opened Issues

  /** The five multiselect widgets' current selections. */
  datatype Selection = Selection(
    courses: seq<string>,
    units: seq<string>,
    statuses: seq<Status>,
    severities: seq<Severity>,
    assignees: seq<string>)

  const NoSelection := Selection([], [], [], [], [])

  datatype Field = CourseField | UnitField | StatusField | SeverityField | AssigneeField

  /** `df[field].isin(values)` for the row `r`, where `values` is the field's selection. */
  predicate IsIn(sel: Selection, f: Field, r: Issue) {
    match f
    case CourseField => r.courseName in sel.courses
    case UnitField => r.unit in sel.units
    case StatusField => r.status in sel.statuses
    case SeverityField => r.severity in sel.severities
    case AssigneeField => r.assignee in sel.assignees
  }

  /** Whether the widget for `f` has anything selected. */
  predicate Selected(sel: Selection, f: Field) {
    match f
    case CourseField => sel.courses != []
    case UnitField => sel.units != []
    case StatusField => sel.statuses != []
    case SeverityField => sel.severities != []
    case AssigneeField => sel.assignees != []
  }

  /** One filter step: keep the rows whose `f` value is in the selection for `f`. */
  function Keep(rows: seq<Issue>, sel: Selection, f: Field): (out: seq<Issue>)
    ensures forall r :: r in out <==> r in rows && IsIn(sel, f, r)
    ensures forall r :: multiset(out)[r] == if IsIn(sel, f, r) then multiset(rows)[r] else 0
    ensures SubsequenceOf(out, rows)
  {
    if rows == [] then []
    else
      assert rows == [rows[0]] + rows[1..];
      if IsIn(sel, f, rows[0]) then [rows[0]] + Keep(rows[1..], sel, f)
      else Keep(rows[1..], sel, f)
  }

  /** A row passes the filters when each non-empty selection contains its value. */
  predicate Admits(sel: Selection, r: Issue) {
    && (sel.courses == [] || r.courseName in sel.courses)
    && (sel.units == [] || r.unit in sel.units)
    && (sel.statuses == [] || r.status in sel.statuses)
    && (sel.severities == [] || r.severity in sel.severities)
    && (sel.assignees == [] || r.assignee in sel.assignees)
  }

  /** The filtered table, in one pass: the admitted rows in their original order. */
  function Filtered(rows: seq<Issue>, sel: Selection): seq<Issue> {
    if rows == [] then []
    else if Admits(sel, rows[0]) then [rows[0]] + Filtered(rows[1..], sel)
    else Filtered(rows[1..], sel)
  }

  /** `if values: fdf = fdf[fdf[field].isin(values)]` */
  function Step(rows: seq<Issue>, sel: Selection, f: Field): seq<Issue> {
    if Selected(sel, f) then Keep(rows, sel, f) else rows
  }

  /**
   * The five conditional reassignments of the filtered frame, in the
   * source's order; the result is the one-pass filter.
   */
  method ApplyFilters(rows: seq<Issue>, sel: Selection) returns (fdf: seq<Issue>)
    ensures fdf == Filtered(rows, sel)
  {
    fdf := rows;
    if sel.courses != [] { fdf := Keep(fdf, sel, CourseField); }
    if sel.units != [] { fdf := Keep(fdf, sel, UnitField); }
    if sel.statuses != [] { fdf := Keep(fdf, sel, StatusField); }
    if sel.severities != [] { fdf := Keep(fdf, sel, SeverityField); }
    if sel.assignees != [] { fdf := Keep(fdf, sel, AssigneeField); }
    StepsEqualFiltered(rows, sel);
  }

  /** One filter step splits over concatenation of tables. */
  lemma {:induction false} KeepAppend(xs: seq<Issue>, ys: seq<Issue>, sel: Selection, f: Field)
    ensures Keep(xs + ys, sel, f) == Keep(xs, sel, f) + Keep(ys, sel, f)
  {
    if xs == [] {
      assert xs + ys == ys;
    } else {
      assert (xs + ys)[1..] == xs[1..] + ys;
      KeepAppend(xs[1..], ys, sel, f);
    }
  }

  /** The five steps in the source's order. */
  function Steps(rows: seq<Issue>, sel: Selection): seq<Issue> {
    Step(Step(Step(Step(Step(rows, sel, CourseField), sel, UnitField), sel, StatusField), sel, SeverityField), sel, AssigneeField)
  }

  lemma StepAppend(xs: seq<Issue>, ys: seq<Issue>, sel: Selection, f: Field)
    ensures Step(xs + ys, sel, f) == Step(xs, sel, f) + Step(ys, sel, f)
  {
    if Selected(sel, f) {
      KeepAppend(xs, ys, sel, f);
    }
  }

  lemma StepsAppend(xs: seq<Issue>, ys: seq<Issue>, sel: Selection)
    ensures Steps(xs + ys, sel) == Steps(xs, sel) + Steps(ys, sel)
  {
    var s1, t1 := Step(xs, sel, CourseField), Step(ys, sel, CourseField);
    StepAppend(xs, ys, sel, CourseField);
    var s2, t2 := Step(s1, sel, UnitField), Step(t1, sel, UnitField);
    StepAppend(s1, t1, sel, UnitField);
    var s3, t3 := Step(s2, sel, StatusField), Step(t2, sel, StatusField);
    StepAppend(s2, t2, sel, StatusField);
    var s4, t4 := Step(s3, sel, SeverityField), Step(t3, sel, SeverityField);
    StepAppend(s3, t3, sel, SeverityField);
    StepAppend(s4, t4, sel, AssigneeField);
  }

  /** Whether the step for `f` lets the row `x` through. */
  predicate Passes(sel: Selection, f: Field, x: Issue) {
    !Selected(sel, f) || IsIn(sel, f, x)
  }

  /** On a table holding at most the row `x`, a step keeps `x` when it passes. */
  lemma StepAtMostOne(s: seq<Issue>, x: Issue, sel: Selection, f: Field)
    requires s == [] || s == [x]
    ensures Step(s, sel, f) == if s == [x] && Passes(sel, f, x) then [x] else []
  {
    if s == [x] && Selected(sel, f) {
      assert s[1..] == [];
    }
  }

  lemma StepsSingleton(x: Issue, sel: Selection)
    ensures Steps([x], sel) == if Admits(sel, x) then [x] else []
  {
    var s1 := Step([x], sel, CourseField);
    StepAtMostOne([x], x, sel, CourseField);
    var s2 := Step(s1, sel, UnitField);
    StepAtMostOne(s1, x, sel, UnitField);
    var s3 := Step(s2, sel, StatusField);
    StepAtMostOne(s2, x, sel, StatusField);
    var s4 := Step(s3, sel, SeverityField);
    StepAtMostOne(s3, x, sel, SeverityField);
    StepAtMostOne(s4, x, sel, AssigneeField);
    assert Admits(sel, x) <==>
      && Passes(sel, CourseField, x) && Passes(sel, UnitField, x) && Passes(sel, StatusField, x)
      && Passes(sel, SeverityField, x) && Passes(sel, AssigneeField, x);
  }

  /** The chain of five steps filters each row independently, by the conjunction. */
  lemma {:induction false} StepsEqualFiltered(rows: seq<Issue>, sel: Selection)
    ensures Steps(rows, sel) == Filtered(rows, sel)
  {
    if rows != [] {
      assert rows == [rows[0]] + rows[1..];
      StepsAppend([rows[0]], rows[1..], sel);
      StepsSingleton(rows[0], sel);
      StepsEqualFiltered(rows[1..], sel);
    }
  }

  /** With nothing selected the filtered table is the whole table. */
  lemma {:induction false} FilterNoSelection(rows: seq<Issue>)
    ensures Filtered(rows, NoSelection) == rows
  {
    if rows != [] {
      FilterNoSelection(rows[1..]);
    }
  }

  /** An empty selection for one field leaves that filter step as the identity. */
  lemma EmptySelectionIsIdentity(rows: seq<Issue>, sel: Selection, f: Field)
    requires !Selected(sel, f)
    ensures Step(rows, sel, f) == rows
  {
  }

  /**
   * A row is in the filtered table exactly when it is in the table and,
   * for each non-empty selection, its value is one of the selected ones.
   */
  lemma {:induction false} FilteredMembers(rows: seq<Issue>, sel: Selection, r: Issue)
    ensures r in Filtered(rows, sel) <==>
      && r in rows
      && (sel.courses != [] ==> r.courseName in sel.courses)
      && (sel.units != [] ==> r.unit in sel.units)
      && (sel.statuses != [] ==> r.status in sel.statuses)
      && (sel.severities != [] ==> r.severity in sel.severities)
      && (sel.assignees != [] ==> r.assignee in sel.assignees)
  {
    if rows != [] {
      FilteredMembers(rows[1..], sel, r);
      assert r in rows <==> r == rows[0] || r in rows[1..];
    }
  }

  /** Every admitted row is kept as often as it occurs in the table; no other row is kept. */
  lemma {:induction false} FilteredCounts(rows: seq<Issue>, sel: Selection, r: Issue)
    ensures multiset(Filtered(rows, sel))[r] == if Admits(sel, r) then multiset(rows)[r] else 0
  {
    if rows != [] {
      assert rows == [rows[0]] + rows[1..];
      FilteredCounts(rows[1..], sel, r);
    }
  }

  /** The filtered table keeps the surviving rows in their original order. */
  lemma {:induction false} FilteredIsSubsequence(rows: seq<Issue>, sel: Selection)
    ensures SubsequenceOf(Filtered(rows, sel), rows)
    ensures |Filtered(rows, sel)| <= |rows|
  {
    if rows != [] {
      FilteredIsSubsequence(rows[1..], sel);
    }
    SubsequenceBounds(Filtered(rows, sel), rows);
  }

  /** Filtering splits over concatenation of tables. */
  lemma {:induction false} FilteredAppend(xs: seq<Issue>, ys: seq<Issue>, sel: Selection)
    ensures Filtered(xs + ys, sel) == Filtered(xs, sel) + Filtered(ys, sel)
  {
    if xs == [] {
      assert xs + ys == ys;
    } else {
      assert (xs + ys)[1..] == xs[1..] + ys;
      FilteredAppend(xs[1..], ys, sel);
    }
  }

  /** Applying the same filters again changes nothing. */
  lemma {:induction false} FilterIdempotent(rows: seq<Issue>, sel: Selection)
    ensures Filtered(Filtered(rows, sel), sel) == Filtered(rows, sel)
  {
    if rows != [] {
      FilterIdempotent(rows[1..], sel);
    }
  }
}
