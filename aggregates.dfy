/**
 * The summaries computed from the filtered table: the KPI cards, the SLA
 * breach figures, issues created per day, the status distribution, the
 * severity mix per course and the age histogram. All of them are counts.
 */
module Aggregates {

  import opened Basics
  import opened Issues

  // ---------------------------------------------------------------------
  // KPI cards and SLA overview

  predicate IsVerified(r: Issue) { r.status == Verified }

  predicate IsClosed(r: Issue) { r.status == Closed }

  predicate IsCriticalOpen(r: Issue) { r.severity == Critical && IsOpen(r) }

  /** `sla_breached & open_mask` */
  predicate IsOpenBreached(r: Issue) { r.slaBreached && IsOpen(r) }

  datatype Kpis = Kpis(openIssues: nat, verified: nat, closed: nat, criticalOpen: nat, slaBreaches: nat)

  /**
   * The four KPI cards and the SLA-breach count. Critical open issues and
   * breached open issues are both among the open ones, and the open,
   * verified and closed rows are disjoint parts of the table.
   */
  function ComputeKpis(rows: seq<Issue>): (k: Kpis)
    ensures k.criticalOpen <= k.openIssues
    ensures k.slaBreaches <= k.openIssues
    ensures k.openIssues + k.verified + k.closed <= |rows|
  {
    CountMonotone(rows, IsCriticalOpen, IsOpen);
    CountMonotone(rows, IsOpenBreached, IsOpen);
    OpenVerifiedClosedDisjoint(rows);
    Kpis(Count(rows, IsOpen), Count(rows, IsVerified), Count(rows, IsClosed),
         Count(rows, IsCriticalOpen), Count(rows, IsOpenBreached))
  }

  lemma {:induction false} OpenVerifiedClosedDisjoint(rows: seq<Issue>)
    ensures Count(rows, IsOpen) + Count(rows, IsVerified) + Count(rows, IsClosed) <= |rows|
  {
    if rows != [] {
      OpenVerifiedClosedDisjoint(rows[1..]);
    }
  }

  function OpenWithSeverity(s: Severity): Issue -> bool {
    (r: Issue) => IsOpen(r) && r.severity == s
  }

  function BreachedWithSeverity(s: Severity): Issue -> bool {
    (r: Issue) => IsOpenBreached(r) && r.severity == s
  }

  /**
   * One bar of the SLA chart as an exact fraction: `breached` of the `open`
   * issues of this severity are past their target (the chart shows
   * 100 * breached / open; with no open issue the rate is undefined).
   */
  datatype BreachRate = BreachRate(severity: Severity, breached: nat, open: nat)

  function BreachRates(rows: seq<Issue>): (rates: seq<BreachRate>)
    ensures |rates| == |AllSeverities|
    ensures forall i :: 0 <= i < |rates| ==> rates[i].severity == AllSeverities[i]
    ensures forall i :: 0 <= i < |rates| ==> rates[i].breached <= rates[i].open
  {
    forall s: Severity ensures Count(rows, BreachedWithSeverity(s)) <= Count(rows, OpenWithSeverity(s)) {
      CountMonotone(rows, BreachedWithSeverity(s), OpenWithSeverity(s));
    }
    seq(|AllSeverities|, i requires 0 <= i < |AllSeverities| =>
      var s := AllSeverities[i];
      BreachRate(s, Count(rows, BreachedWithSeverity(s)), Count(rows, OpenWithSeverity(s))))
  }

  /**
   * The per-severity fractions add up to the SLA overview's totals: their
   * numerators to the open breaches, their denominators to the open issues.
   */
  lemma BreachRatesAddUp(rows: seq<Issue>)
    ensures var rates := BreachRates(rows);
      && rates[0].breached + rates[1].breached + rates[2].breached + rates[3].breached == ComputeKpis(rows).slaBreaches
      && rates[0].open + rates[1].open + rates[2].open + rates[3].open == ComputeKpis(rows).openIssues
  {
    BreachedPartition(rows);
    OpenPartition(rows);
  }

  lemma {:induction false} BreachedPartition(rows: seq<Issue>)
    ensures Count(rows, BreachedWithSeverity(Low)) + Count(rows, BreachedWithSeverity(Medium))
          + Count(rows, BreachedWithSeverity(High)) + Count(rows, BreachedWithSeverity(Critical))
         == Count(rows, IsOpenBreached)
  {
    if rows != [] {
      BreachedPartition(rows[1..]);
    }
  }

  lemma {:induction false} OpenPartition(rows: seq<Issue>)
    ensures Count(rows, OpenWithSeverity(Low)) + Count(rows, OpenWithSeverity(Medium))
          + Count(rows, OpenWithSeverity(High)) + Count(rows, OpenWithSeverity(Critical))
         == Count(rows, IsOpen)
  {
    if rows != [] {
      OpenPartition(rows[1..]);
    }
  }

  // ---------------------------------------------------------------------
  // Issues created per day

  /** One point of the creation line chart. */
  datatype DayCount = DayCount(day: int, count: nat)

  ghost predicate StrictlyIncreasing(h: seq<DayCount>) {
    forall i, j :: 0 <= i < j < |h| ==> h[i].day < h[j].day
  }

  /** The count recorded for day `d`, or 0 when the day is absent. */
  function CountOn(h: seq<DayCount>, d: int): nat {
    if h == [] then 0 else if h[0].day == d then h[0].count else CountOn(h[1..], d)
  }

  function Total(h: seq<DayCount>): nat {
    if h == [] then 0 else h[0].count + Total(h[1..])
  }

  function CreatedOn(d: int): Issue -> bool {
    (r: Issue) => Day(r.createdAt) == d
  }

  lemma {:induction false} CountOnBelow(h: seq<DayCount>, d: int)
    requires StrictlyIncreasing(h) && (h == [] || d < h[0].day)
    ensures CountOn(h, d) == 0
  {
    if h != [] {
      CountOnBelow(h[1..], d);
    }
  }

  /** Records one more issue created on day `d`, keeping the days in order. */
  function AddDay(h: seq<DayCount>, d: int): (h': seq<DayCount>)
    requires StrictlyIncreasing(h)
    ensures StrictlyIncreasing(h')
    ensures h' != [] && h'[0].day == (if h == [] || d < h[0].day then d else h[0].day)
    ensures forall e :: CountOn(h', e) == CountOn(h, e) + (if e == d then 1 else 0)
    ensures Total(h') == Total(h) + 1
    ensures (forall i :: 0 <= i < |h| ==> h[i].count > 0) ==> forall i :: 0 <= i < |h'| ==> h'[i].count > 0
  {
    if h == [] then [DayCount(d, 1)]
    else if d < h[0].day then CountOnBelow(h, d); [DayCount(d, 1)] + h
    else if d == h[0].day then [DayCount(d, h[0].count + 1)] + h[1..]
    else [h[0]] + AddDay(h[1..], d)
  }

  /**
   * `groupby(created_date).size()`: the dates on which issues were created,
   * ascending, each with its number of issues; dates without issues are
   * absent rather than zero.
   */
  function CreatedDaily(rows: seq<Issue>): (h: seq<DayCount>)
    ensures StrictlyIncreasing(h)
    ensures forall i :: 0 <= i < |h| ==> h[i].count > 0
    ensures forall d :: CountOn(h, d) == Count(rows, CreatedOn(d))
    ensures Total(h) == |rows|
  {
    if rows == [] then [] else AddDay(CreatedDaily(rows[1..]), Day(rows[0].createdAt))
  }

  lemma {:induction false} CountOnEntry(h: seq<DayCount>, i: nat)
    requires StrictlyIncreasing(h) && i < |h|
    ensures CountOn(h, h[i].day) == h[i].count
  {
    if i > 0 {
      CountOnEntry(h[1..], i - 1);
    }
  }

  /** Every point of the daily series is a date on which some row of the table was created. */
  lemma DailyEntriesOccur(rows: seq<Issue>, i: nat)
    requires i < |CreatedDaily(rows)|
    ensures exists k :: 0 <= k < |rows| && Day(rows[k].createdAt) == CreatedDaily(rows)[i].day
  {
    var h := CreatedDaily(rows);
    CountOnEntry(h, i);
    assert Count(rows, CreatedOn(h[i].day)) > 0;
  }

  // ---------------------------------------------------------------------
  // Status distribution

  function StatusIs(s: Status): Issue -> bool {
    (r: Issue) => r.status == s
  }

  datatype StatusCount = StatusCount(status: Status, count: nat)

  /** `value_counts()` of the ordered status column: every category, zero counts included. */
  function StatusDistribution(rows: seq<Issue>): (d: seq<StatusCount>)
    ensures |d| == |AllStatuses|
    ensures forall i :: 0 <= i < |d| ==> d[i].status == AllStatuses[i]
    ensures d[0].count + d[1].count + d[2].count + d[3].count + d[4].count == |rows|
  {
    StatusPartition(rows);
    seq(|AllStatuses|, i requires 0 <= i < |AllStatuses| =>
      StatusCount(AllStatuses[i], Count(rows, StatusIs(AllStatuses[i]))))
  }

  lemma {:induction false} StatusPartition(rows: seq<Issue>)
    ensures Count(rows, StatusIs(Open)) + Count(rows, StatusIs(InProgress)) + Count(rows, StatusIs(Fixed))
          + Count(rows, StatusIs(Verified)) + Count(rows, StatusIs(Closed)) == |rows|
  {
    if rows != [] {
      StatusPartition(rows[1..]);
    }
  }

  // ---------------------------------------------------------------------
  // Severity mix per course

  function CourseIs(c: string): Issue -> bool {
    (r: Issue) => r.courseName == c
  }

  function CourseSeverityIs(c: string, s: Severity): Issue -> bool {
    (r: Issue) => r.courseName == c && r.severity == s
  }

  /** The bars of one course in the stacked chart: its rows per severity, least severe first. */
  function SeverityMix(rows: seq<Issue>, course: string): (mix: seq<nat>)
    ensures |mix| == |AllSeverities|
    ensures mix[0] + mix[1] + mix[2] + mix[3] == Count(rows, CourseIs(course))
  {
    CourseSeverityPartition(rows, course);
    seq(|AllSeverities|, i requires 0 <= i < |AllSeverities| => Count(rows, CourseSeverityIs(course, AllSeverities[i])))
  }

  lemma {:induction false} CourseSeverityPartition(rows: seq<Issue>, c: string)
    ensures Count(rows, CourseSeverityIs(c, Low)) + Count(rows, CourseSeverityIs(c, Medium))
          + Count(rows, CourseSeverityIs(c, High)) + Count(rows, CourseSeverityIs(c, Critical))
         == Count(rows, CourseIs(c))
  {
    if rows != [] {
      CourseSeverityPartition(rows[1..], c);
    }
  }

  // ---------------------------------------------------------------------
  // Age histogram

  /** The five right-closed age bins (-1,2], (2,5], (5,10], (10,20], (20,999]. */
  datatype AgeBucket = UpTo2 | From3To5 | From6To10 | From11To20 | Over20

  const AllBuckets: seq<AgeBucket> := [UpTo2, From3To5, From6To10, From11To20, Over20]

  function Label(b: AgeBucket): string {
    match b
    case UpTo2 => "≤2d"
    case From3To5 => "3–5d"
    case From6To10 => "6–10d"
    case From11To20 => "11–20d"
    case Over20 => ">20d"
  }

  /** Exclusive lower edge of a bin. */
  function LowerEdge(b: AgeBucket): int {
    match b
    case UpTo2 => -1
    case From3To5 => 2
    case From6To10 => 5
    case From11To20 => 10
    case Over20 => 20
  }

  /** Inclusive upper edge of a bin. */
  function UpperEdge(b: AgeBucket): int {
    match b
    case UpTo2 => 2
    case From3To5 => 5
    case From6To10 => 10
    case From11To20 => 20
    case Over20 => 999
  }

  /** `pd.cut` of one age: the bin holding it, or none when it lies outside (-1, 999]. */
  function BucketOf(age: int): (b: Option<AgeBucket>)
    ensures b.Some? <==> -1 < age <= 999
    ensures b.Some? ==> LowerEdge(b.value) < age <= UpperEdge(b.value)
  {
    if -1 < age <= 2 then Some(UpTo2)
    else if 2 < age <= 5 then Some(From3To5)
    else if 5 < age <= 10 then Some(From6To10)
    else if 10 < age <= 20 then Some(From11To20)
    else if 20 < age <= 999 then Some(Over20)
    else None
  }

  /** The bins do not overlap: an age lies in a bin exactly when `BucketOf` picks that bin. */
  lemma BucketExactlyOne(age: int, b: AgeBucket)
    ensures LowerEdge(b) < age <= UpperEdge(b) <==> BucketOf(age) == Some(b)
  {
  }

  function InBucket(b: AgeBucket): Issue -> bool {
    (r: Issue) => BucketOf(r.ageDays) == Some(b)
  }

  predicate AgeInRange(r: Issue) {
    -1 < r.ageDays <= 999
  }

  datatype BucketCount = BucketCount(bucket: AgeBucket, caption: string, count: nat)

  /**
   * The age histogram: all five bins in order, each with its number of
   * rows; together they count exactly the rows whose age lies in (-1, 999].
   */
  function AgeDistribution(rows: seq<Issue>): (d: seq<BucketCount>)
    ensures |d| == |AllBuckets|
    ensures forall i :: 0 <= i < |d| ==> d[i].bucket == AllBuckets[i] && d[i].caption == Label(AllBuckets[i])
    ensures d[0].count + d[1].count + d[2].count + d[3].count + d[4].count == Count(rows, AgeInRange)
  {
    BucketPartition(rows);
    seq(|AllBuckets|, i requires 0 <= i < |AllBuckets| =>
      BucketCount(AllBuckets[i], Label(AllBuckets[i]), Count(rows, InBucket(AllBuckets[i]))))
  }

  lemma {:induction false} BucketPartition(rows: seq<Issue>)
    ensures Count(rows, InBucket(UpTo2)) + Count(rows, InBucket(From3To5)) + Count(rows, InBucket(From6To10))
          + Count(rows, InBucket(From11To20)) + Count(rows, InBucket(Over20)) == Count(rows, AgeInRange)
  {
    if rows != [] {
      BucketPartition(rows[1..]);
    }
  }
}
