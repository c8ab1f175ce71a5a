/**
 * The derived columns: the SLA target in days from the severity, the age
 * of an issue in whole days at the moment `now`, and whether the issue has
 * breached its SLA.
 */
module Sla {

  import opened Issues

  /** The fixed severity-to-target map: the more severe, the shorter the target. */
  function SlaDays(s: Severity): (d: int)
    ensures d in {2, 5, 10, 15}
  {
    match s
    case Critical => 2
    case High => 5
    case Medium => 10
    case Low => 15
  }

  /** A more severe issue never gets a longer SLA target. */
  lemma SlaDaysDecreasing(a: Severity, b: Severity)
    requires SeverityRank(a) < SeverityRank(b)
    ensures SlaDays(a) > SlaDays(b)
  {
  }

  /**
   * `(now - created).days`: whole days elapsed, rounded towards minus
   * infinity like a pandas timedelta's `.days`.
   */
  function AgeDays(now: Timestamp, created: Timestamp): (age: int)
    ensures age * SecondsPerDay <= now - created < (age + 1) * SecondsPerDay
  {
    (now - created) / SecondsPerDay
  }

  /** Two rows agree on every column that is read from the input. */
  predicate SameInputColumns(a: Issue, b: Issue) {
    && a.issueId == b.issueId && a.courseName == b.courseName && a.unit == b.unit
    && a.itemId == b.itemId && a.itemType == b.itemType && a.status == b.status
    && a.severity == b.severity && a.reporter == b.reporter && a.assignee == b.assignee
    && a.createdAt == b.createdAt && a.updatedAt == b.updatedAt && a.notes == b.notes
    && a.browser == b.browser && a.environment == b.environment
  }

  /** Fills in `sla_days`, `age_days` and `sla_breached` for one row. */
  function Derive(r: Issue, now: Timestamp): (d: Issue)
    ensures SameInputColumns(d, r)
    ensures d.slaDays == SlaDays(r.severity)
    ensures d.ageDays * SecondsPerDay <= now - r.createdAt < (d.ageDays + 1) * SecondsPerDay
    ensures d.slaBreached <==> d.ageDays > d.slaDays
  {
    var sla := SlaDays(r.severity);
    var age := AgeDays(now, r.createdAt);
    r.(slaDays := sla, ageDays := age, slaBreached := age > sla)
  }

  /** The derived table: every row derived at the same instant `now`. */
  function DeriveAll(rows: seq<Issue>, now: Timestamp): (out: seq<Issue>)
    ensures |out| == |rows|
    ensures forall i :: 0 <= i < |rows| ==> out[i] == Derive(rows[i], now)
    ensures forall i :: 0 <= i < |out| ==> (out[i].slaBreached <==> out[i].ageDays > out[i].slaDays)
  {
    seq(|rows|, i requires 0 <= i < |rows| => Derive(rows[i], now))
  }

  /** Deriving an already derived table at the same instant changes nothing. */
  lemma DeriveAllIdempotent(rows: seq<Issue>, now: Timestamp)
    ensures DeriveAll(DeriveAll(rows, now), now) == DeriveAll(rows, now)
  {
  }

  /** A Critical issue created three days (and a few hours) ago has breached its 2-day target. */
  lemma CriticalThreeDaysOld(r: Issue, now: Timestamp, hours: nat)
    requires r.severity == Critical && hours < 24
    requires now == r.createdAt + 3 * SecondsPerDay + hours * 3600
    ensures Derive(r, now).slaDays == 2
    ensures Derive(r, now).ageDays == 3
    ensures Derive(r, now).slaBreached
  {
  }
}
