/**
 * The issue table's row type. Timestamps are whole seconds on a single
 * clock; a calendar date is the number of whole days since that clock's
 * origin, so `Day(t)` is what pandas' `.dt.date` yields for `t`.
 */
module Issues {

  import opened Text

  /** The ordered status categories, in their declared order. */
  datatype Status = Open | InProgress | Fixed | Verified | Closed

  datatype Severity = Low | Medium | High | Critical

  /** The status categories in the order the dashboard declares them. */
  const AllStatuses: seq<Status> := [Open, InProgress, Fixed, Verified, Closed]

  /** The severities as the source lists them, from least to most severe. */
  const AllSeverities: seq<Severity> := [Low, Medium, High, Critical]

  /** Position of a status in the ordered categorical. */
  function StatusRank(s: Status): (k: nat)
    ensures k < |AllStatuses| && AllStatuses[k] == s
  {
    match s
    case Open => 0
    case InProgress => 1
    case Fixed => 2
    case Verified => 3
    case Closed => 4
  }

  /** Position of a severity from least to most severe. */
  function SeverityRank(s: Severity): (k: nat)
    ensures k < |AllSeverities| && AllSeverities[k] == s
  {
    match s
    case Low => 0
    case Medium => 1
    case High => 2
    case Critical => 3
  }

  function SeverityName(s: Severity): string {
    match s
    case Low => "Low"
    case Medium => "Medium"
    case High => "High"
    case Critical => "Critical"
  }

  type Timestamp = int

  const SecondsPerDay: int := 86400

  /** Calendar date of a timestamp, as a day number. */
  function Day(t: Timestamp): (d: int)
    ensures d * SecondsPerDay <= t < (d + 1) * SecondsPerDay
  {
    t / SecondsPerDay
  }

  /**
   * One row of the issue table. The last three fields are the derived
   * columns `sla_days`, `age_days` and `sla_breached`.
   */
  datatype Issue = Issue(
    issueId: string,
    courseName: string,
    unit: string,
    itemId: string,
    itemType: string,
    status: Status,
    severity: Severity,
    reporter: string,
    assignee: string,
    createdAt: Timestamp,
    updatedAt: Timestamp,
    notes: string,
    browser: string,
    environment: string,
    slaDays: int,
    ageDays: int,
    slaBreached: bool)

  /** The open mask: status is Open or In Progress. */
  predicate IsOpen(r: Issue) {
    r.status == Open || r.status == InProgress
  }
}
