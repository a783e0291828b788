/** Rows of the outbox table and the updates OutboxRepository makes to them
    (backend/app/domain/outbox/repository.py). An event's id is its position in the table. */
module Outbox {
  import opened Basics

  datatype Status = Pending | Processing | Processed | Retryable | Failed

  datatype Row = Row(
    eventType: string,
    aggregateType: string,
    status: Status,
    attempts: int,
    availableAt: int,
    startedAt: Option<int>,
    processedAt: Option<int>,
    lastError: Option<string>)

  type EventId = nat
  type Table = seq<Row>

  /** A claimed event as the worker holds it: the attempt count is the one read at the claim. */
  datatype Claim = Claim(id: EventId, attempt: int)

  const RETRY_AFTER_SECONDS := 60
  const ERROR_LENGTH := 1000

  predicate Terminal(row: Row) {
    row.status == Processed || row.status == Failed
  }

  // ---- Claiming ----

  predicate Stuck(row: Row, now: int, lease: int) {
    row.status == Processing && row.startedAt.Some? && row.startedAt.value < now - lease
  }

  function ReclaimedRow(row: Row, now: int, lease: int): Row {
    if Stuck(row, now, lease) then row.(status := Retryable, availableAt := now, startedAt := None) else row
  }

  function Reclaimed(table: Table, now: int, lease: int): Table {
    seq(|table|, i requires 0 <= i < |table| => ReclaimedRow(table[i], now, lease))
  }

  predicate Eligible(row: Row, now: int) {
    (row.status == Pending || row.status == Retryable) && row.availableAt <= now
  }

  predicate Candidate(table: Table, now: int, locked: set<EventId>, id: int) {
    0 <= id < |table| && Eligible(table[id], now) && id !in locked
  }

  /** What the database may answer to the claiming query: the rows that are due and not locked,
      oldest availability first, cut off at the batch size. */
  ghost predicate IsSelection(table: Table, now: int, batch: nat, locked: set<EventId>, picked: seq<EventId>) {
    && |picked| <= batch
    && (forall k :: 0 <= k < |picked| ==> Candidate(table, now, locked, picked[k]))
    && (forall j, k :: 0 <= j < k < |picked| ==> picked[j] != picked[k])
    && (forall j, k :: 0 <= j < k < |picked| ==> table[picked[j]].availableAt <= table[picked[k]].availableAt)
    && (forall id, k :: Candidate(table, now, locked, id) && id !in picked && 0 <= k < |picked| ==>
          table[picked[k]].availableAt <= table[id].availableAt)
    && (|picked| < batch ==> forall id :: Candidate(table, now, locked, id) ==> id in picked)
  }

  lemma {:induction false} MinimalCandidate(table: Table, now: int, locked: set<EventId>, picked: seq<EventId>, n: nat)
      returns (best: int)
    requires n <= |table|
    ensures -1 <= best < n
    ensures best < 0 ==> forall id :: 0 <= id < n && Candidate(table, now, locked, id) ==> id in picked
    ensures best >= 0 ==>
              && Candidate(table, now, locked, best) && best !in picked
              && forall id :: 0 <= id < n && Candidate(table, now, locked, id) && id !in picked ==>
                   table[best].availableAt <= table[id].availableAt
  {
    if n == 0 { return -1; }
    best := MinimalCandidate(table, now, locked, picked, n - 1);
    if Candidate(table, now, locked, n - 1) && n - 1 !in picked
       && (best < 0 || table[n - 1].availableAt < table[best].availableAt) {
      best := n - 1;
    }
  }

  /** The claiming query always has an answer. */
  lemma {:induction false} SelectionExists(table: Table, now: int, batch: nat, locked: set<EventId>)
      returns (picked: seq<EventId>)
    ensures IsSelection(table, now, batch, locked, picked)
  {
    if batch == 0 { return []; }
    picked := SelectionExists(table, now, batch - 1, locked);
    var next := MinimalCandidate(table, now, locked, picked, |table|);
    if next >= 0 {
      assert |picked| == batch - 1;
      picked := picked + [next];
    }
  }

  function ClaimedRow(row: Row, now: int): Row {
    row.(status := Processing, startedAt := Some(now), attempts := row.attempts + 1)
  }

  /** The table once the whole claim is committed. */
  function AfterClaim(table: Table, now: int, lease: int, picked: seq<EventId>): Table {
    seq(|table|, i requires 0 <= i < |table| =>
      if i in picked then ClaimedRow(ReclaimedRow(table[i], now, lease), now)
      else ReclaimedRow(table[i], now, lease))
  }

  function ClaimsOf(table: Table, picked: seq<EventId>): seq<Claim>
    requires forall k :: 0 <= k < |picked| ==> picked[k] < |table|
  {
    seq(|picked|, k requires 0 <= k < |picked| => Claim(picked[k], table[picked[k]].attempts))
  }

  // ---- Settling ----

  function Truncated(error: string): string {
    if |error| <= ERROR_LENGTH then error else error[..ERROR_LENGTH]
  }

  function DoneRow(row: Row, now: int): Row {
    row.(status := Processed, processedAt := Some(now), startedAt := None)
  }

  function RetryRow(row: Row, error: string, now: int): Row {
    row.(status := Retryable, lastError := Some(error), availableAt := now + RETRY_AFTER_SECONDS, startedAt := None)
  }

  function FailedRow(row: Row, error: string, now: int): Row {
    row.(status := Failed, lastError := Some(error), processedAt := Some(now), startedAt := None)
  }

  /** How a failure is recorded: for good once the claimed attempt reaches the limit. */
  function ErrorRow(row: Row, attempt: int, maxAttempts: int, error: string, now: int): Row {
    if attempt >= maxAttempts then FailedRow(row, Truncated(error), now)
    else RetryRow(row, Truncated(error), now)
  }
}
