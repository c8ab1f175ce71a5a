/**
 * The demo-table generator. Its random draws are a parameter: `draws[i]`
 * holds what the generator draws for row `i`, within the ranges and choice
 * lists it draws from. The wall clock is the parameter `now`.
 */
module ExampleData {

  import opened Text
  import opened Issues
  import opened Sla

  /** The values drawn for one generated row. */
  datatype Draw = Draw(
    daysBack: int,
    daysToUpdate: int,
    status: Status,
    course: nat,
    unit: nat,
    itemNumber: nat,
    itemType: string,
    severity: Severity,
    reporter: string,
    assignee: string,
    notes: string,
    browser: string,
    environment: string)

  const UnitCount: nat := 8
  const ItemTypes: seq<string> := ["Video", "Quiz", "Reading", "Assignment", "Slide"]
  const Reporters: seq<string> := ["QA", "Author", "Reviewer", "Student"]
  const Assignees: seq<string> := ["Alex", "Sam", "Riley", "Jordan", "Kim"]
  const NoteChoices: seq<string> := ["typo", "broken link", "layout", "audio", "timing", "grading", "accessibility"]
  const Browsers: seq<string> := ["Chrome", "Safari", "Firefox", "Edge"]
  const Environments: seq<string> := ["Staging", "Production"]

  /** What the random source can produce for one row when there are `courses` courses. */
  predicate ValidDraw(d: Draw, courses: nat) {
    && 0 <= d.daysBack < 40
    && 0 <= d.daysToUpdate < 15
    && d.course < courses
    && d.unit < UnitCount
    && 1 <= d.itemNumber < 9999
    && d.itemType in ItemTypes
    && d.reporter in Reporters
    && d.assignee in Assignees
    && d.notes in NoteChoices
    && d.browser in Browsers
    && d.environment in Environments
  }

  /** `f"ISSUE-{1000+i}"` */
  function IssueId(i: nat): string {
    "ISSUE-" + NatToString(1000 + i)
  }

  /** Generated issue ids are pairwise distinct. */
  lemma IssueIdInjective(i: nat, j: nat)
    requires IssueId(i) == IssueId(j)
    ensures i == j
  {
    assert IssueId(i)[6..] == NatToString(1000 + i);
    assert IssueId(j)[6..] == NatToString(1000 + j);
    NatToStringInjective(1000 + i, 1000 + j);
  }

  /** `f"Course {k+1}"` */
  function CourseName(k: nat): string {
    "Course " + NatToString(k + 1)
  }

  /** `f"Unit {k+1}"` */
  function UnitName(k: nat): string {
    "Unit " + NatToString(k + 1)
  }

  /** `f"ITEM-{n}"` */
  function ItemId(n: nat): string {
    "ITEM-" + NatToString(n)
  }

  /** Row `k`'s input columns as the generator fills them from `d`, with `today` the current midnight. */
  predicate Drawn(r: Issue, k: nat, d: Draw, today: Timestamp) {
    && r.issueId == IssueId(k)
    && r.courseName == CourseName(d.course)
    && r.unit == UnitName(d.unit)
    && r.itemId == ItemId(d.itemNumber)
    && r.itemType == d.itemType
    && r.status == d.status
    && r.severity == d.severity
    && r.reporter == d.reporter
    && r.assignee == d.assignee
    && r.createdAt == today - d.daysBack * SecondsPerDay
    && r.updatedAt == r.createdAt + d.daysToUpdate * SecondsPerDay
    && r.notes == d.notes
    && r.browser == d.browser
    && r.environment == d.environment
  }

  /** The age of a row created a whole number of days before today's midnight is that number. */
  lemma AgeOfDrawnRow(now: Timestamp, back: int)
    ensures AgeDays(now, Day(now) * SecondsPerDay - back * SecondsPerDay) == back
  {
    var t := now - Day(now) * SecondsPerDay;
    assert 0 <= t < SecondsPerDay;
    var a := AgeDays(now, Day(now) * SecondsPerDay - back * SecondsPerDay);
    assert a * SecondsPerDay <= t + back * SecondsPerDay < (a + 1) * SecondsPerDay;
    assert (a - back) * SecondsPerDay <= t < (a - back + 1) * SecondsPerDay;
  }

  /** Row `k` of the demo table before its SLA columns exist (they are filled in by `Derive`). */
  function DrawnRow(k: nat, d: Draw, today: Timestamp): (r: Issue)
    ensures Drawn(r, k, d, today)
  {
    var created := today - d.daysBack * SecondsPerDay;
    Issue(IssueId(k), CourseName(d.course), UnitName(d.unit), ItemId(d.itemNumber),
          d.itemType, d.status, d.severity, d.reporter, d.assignee,
          created, created + d.daysToUpdate * SecondsPerDay,
          d.notes, d.browser, d.environment, 0, 0, false)
  }

  /** What deriving the SLA columns at `now` makes of the drawn rows. */
  lemma DerivedDrawnRows(raw: seq<Issue>, draws: seq<Draw>, now: Timestamp, courses: nat)
    requires |raw| == |draws|
    requires forall i :: 0 <= i < |draws| ==> ValidDraw(draws[i], courses)
    requires forall i :: 0 <= i < |raw| ==> Drawn(raw[i], i, draws[i], Day(now) * SecondsPerDay)
    ensures var rows := DeriveAll(raw, now);
      && (forall i :: 0 <= i < |rows| ==> Drawn(rows[i], i, draws[i], Day(now) * SecondsPerDay))
      && (forall i, j :: 0 <= i < j < |rows| ==> rows[i].issueId != rows[j].issueId)
      && (forall i :: 0 <= i < |rows| ==> rows[i].createdAt <= rows[i].updatedAt)
      && (forall i :: 0 <= i < |rows| ==> rows[i].ageDays == draws[i].daysBack && 0 <= rows[i].ageDays < 40)
  {
    var rows := DeriveAll(raw, now);
    forall i | 0 <= i < |rows|
      ensures Drawn(rows[i], i, draws[i], Day(now) * SecondsPerDay)
      ensures rows[i].ageDays == draws[i].daysBack
    {
      assert SameInputColumns(rows[i], raw[i]);
      AgeOfDrawnRow(now, draws[i].daysBack);
    }
    forall i, j | 0 <= i < j < |rows| ensures rows[i].issueId != rows[j].issueId {
      if rows[i].issueId == rows[j].issueId {
        IssueIdInjective(i, j);
      }
    }
  }

  /**
   * Builds the demo table row by row, then derives the SLA columns at
   * `now`. Ids are unique, every row is updated no earlier than it was
   * created, and every age is the number of days drawn for it, so it falls
   * in one of the age bins.
   */
  method Generate(courses: nat, draws: seq<Draw>, now: Timestamp) returns (rows: seq<Issue>)
    requires forall i :: 0 <= i < |draws| ==> ValidDraw(draws[i], courses)
    ensures |rows| == |draws|
    ensures forall i :: 0 <= i < |rows| ==> Drawn(rows[i], i, draws[i], Day(now) * SecondsPerDay)
    ensures forall i, j :: 0 <= i < j < |rows| ==> rows[i].issueId != rows[j].issueId
    ensures forall i :: 0 <= i < |rows| ==> rows[i].createdAt <= rows[i].updatedAt
    ensures forall i :: 0 <= i < |rows| ==> rows[i].ageDays == draws[i].daysBack && 0 <= rows[i].ageDays < 40
    ensures forall i :: 0 <= i < |rows| ==> rows[i].slaDays == SlaDays(rows[i].severity)
    ensures forall i :: 0 <= i < |rows| ==> (rows[i].slaBreached <==> rows[i].ageDays > rows[i].slaDays)
  {
    var today := Day(now) * SecondsPerDay;
    var raw: seq<Issue> := [];
    for i := 0 to |draws|
      invariant |raw| == i
      invariant forall k :: 0 <= k < i ==> Drawn(raw[k], k, draws[k], today)
    {
      raw := raw + [DrawnRow(i, draws[i], today)];
    }
    rows := DeriveAll(raw, now);
    DerivedDrawnRows(raw, draws, now, courses);
  }
}
