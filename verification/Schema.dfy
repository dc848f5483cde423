/**
 The durable tables (backend/prisma/schema.prisma), and the single-statement updates the program
 makes to them.  Each update is one conditional SQL statement, so it is atomic.

 Row and campaign ids are numbers, in the order the database sorts them.
 */
module Schema {
  import opened Wrappers

  type JobId = int
  type CampaignId = int

  datatype JobStatus = Scheduled | Processing | Sent | Failed | Cancelled
  datatype CampaignStatus =
    | CampaignScheduled | CampaignProcessing | Completed | PartiallyFailed | CampaignCancelled

  datatype Row = Row(campaign: CampaignId, sender: string, sequenceNumber: nat, scheduledAt: int,
                     status: JobStatus, startedAt: Option<int>, attempts: nat, sentAt: Option<int>)

  type Rows = map<JobId, Row>
  type Campaigns = map<CampaignId, CampaignStatus>

  predicate Pending(status: JobStatus)
  {
    status == Scheduled || status == Processing
  }

  predicate Terminal(status: JobStatus)
  {
    !Pending(status)
  }

  predicate Finished(status: CampaignStatus)
  {
    status == Completed || status == PartiallyFailed || status == CampaignCancelled
  }

  predicate HasStatus(rows: Rows, id: JobId, status: JobStatus)
  {
    id in rows && rows[id].status == status
  }

  /** Every SENT row carries the time it was sent. */
  predicate SentRowsStamped(rows: Rows)
  {
    forall id :: id in rows && rows[id].status == Sent ==> rows[id].sentAt.Some?
  }

  /** Within a campaign, a sequence number names one job. */
  predicate DistinctPositions(rows: Rows, campaign: CampaignId)
  {
    forall i, j :: i in rows && j in rows && i != j && rows[i].campaign == campaign == rows[j].campaign
      ==> rows[i].sequenceNumber != rows[j].sequenceNumber
  }

  /** What no statement changes in a job. */
  predicate SameJob(row: Row, row': Row)
  {
    row'.campaign == row.campaign && row'.sender == row.sender
    && row'.sequenceNumber == row.sequenceNumber && row'.scheduledAt == row.scheduledAt
  }

  /** The same job at a later moment, which also keeps the time of sending once there is one. */
  predicate KeepsJob(row: Row, row': Row)
  {
    SameJob(row, row') && (row.sentAt.Some? ==> row'.sentAt == row.sentAt)
  }

  // ---- Statements on one row --------------------------------------------------------------------

  /** The claim: SCHEDULED to PROCESSING, stamped and counted, or no change. */
  function Claimed(rows: Rows, id: JobId, now: int): Rows
  {
    if HasStatus(rows, id, Scheduled) then
      rows[id := rows[id].(status := Processing, startedAt := Some(now), attempts := rows[id].attempts + 1)]
    else rows
  }

  /** The roll-back: PROCESSING to SCHEDULED.  Its guard tests the status and no owner. */
  function Released(rows: Rows, id: JobId): Rows
  {
    if HasStatus(rows, id, Processing) then rows[id := rows[id].(status := Scheduled, startedAt := None)] else rows
  }

  /** The two final writes have no guard at all. */
  function MarkedSent(rows: Rows, id: JobId, now: int): Rows
    requires id in rows
  {
    rows[id := rows[id].(status := Sent, sentAt := Some(now))]
  }

  function MarkedFailed(rows: Rows, id: JobId): Rows
    requires id in rows
  {
    rows[id := rows[id].(status := Failed)]
  }

  // ---- Bulk statements ----------------------------------------------------------------------------

  predicate Stale(row: Row, cutoff: int)
  {
    row.status == Processing && (row.startedAt.None? || row.startedAt.value < cutoff)
  }

  function StaleFailed(rows: Rows, cutoff: int): Rows
  {
    map id | id in rows :: if Stale(rows[id], cutoff) then rows[id].(status := Failed) else rows[id]
  }

  function ScheduledCancelled(rows: Rows, campaign: CampaignId): Rows
  {
    map id | id in rows ::
      if rows[id].campaign == campaign && rows[id].status == Scheduled then rows[id].(status := Cancelled) else rows[id]
  }

  // ---- Counts -------------------------------------------------------------------------------------

  function PendingIds(rows: Rows, campaign: CampaignId): set<JobId>
  {
    set id | id in rows && rows[id].campaign == campaign && Pending(rows[id].status)
  }

  function FailedIds(rows: Rows, campaign: CampaignId): set<JobId>
  {
    set id | id in rows && rows[id].campaign == campaign && rows[id].status == Failed
  }
}
