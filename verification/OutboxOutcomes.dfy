/** The outcome of every event of a batch, read off the plan of its handlers, its row and the
    configuration alone: what the documentation of process_outbox_events promises, spelled out. */
module OutboxOutcomes {
  import opened Basics
  import opened Outbox
  import opened OutboxWorker
  import opened OutboxBatch

  /** The handler raises, or there is none for the event. */
  predicate IsRefused(row: Row, plan: Plan, cfg: Config) {
    plan.raises || (|row.eventType| >= 6 && row.eventType[..6] == "voice." && !cfg.hasVoice)
  }

  /** Booking automation is given the event. */
  predicate IsBooking(row: Row, cfg: Config) {
    && cfg.hasAutomation && row.aggregateType == "booking"
    && (row.eventType == "BOOKING_CONFIRMED" || row.eventType == "BOOKING_CANCELLED"
        || row.eventType == "BOOKING_COMPLETED" || row.eventType == "BOOKING_IN_PROGRESS")
  }

  predicate IsDone(before: Row, after: Row, at: int) {
    after == before.(status := Processed, processedAt := Some(at), startedAt := None)
  }

  /** A failure is put back for a minute later, or is final from the last attempt on; of its message
      1000 characters are kept. If even that cannot be recorded, nothing changes. */
  predicate IsFailure(before: Row, after: Row, attempt: int, plan: Plan, cfg: Config) {
    var text := if |plan.error| <= 1000 then plan.error else plan.error[..1000];
    if !plan.errorCommitOk then after == before
    else if attempt < cfg.maxAttempts then
      after == before.(status := Retryable, lastError := Some(text), availableAt := plan.settledAt + 60,
                       startedAt := None)
    else
      after == before.(status := Failed, lastError := Some(text), processedAt := Some(plan.settledAt),
                       startedAt := None)
  }

  predicate Extends(before: seq<Effect>, after: seq<Effect>, id: EventId, writer: Writer, whats: seq<nat>) {
    && |after| == |before| + |whats| && after[..|before|] == before
    && forall k :: 0 <= k < |whats| ==> after[|before| + k] == Effect(id, writer, whats[k])
  }

  lemma Literally(row: Row, plan: Plan, cfg: Config)
    ensures HandlerRaises(row, plan, cfg) <==> IsRefused(row, plan, cfg)
    ensures !IsRefused(row, plan, cfg) ==> HandlerWrites(row, plan, cfg) == plan.writes
    ensures RunsAutomation(row, cfg) <==> IsBooking(row, cfg)
  {
  }

  // ---- Events do not write for each other, whoever writes ----

  lemma {:induction false} RanSparesOthers(tx: Tx, owner: EventId, ops: seq<AutoOp>, id: EventId, writer: Writer)
    requires id != owner && Of(tx.durable.effects, id, writer) == Of(tx.working.effects, id, writer)
    ensures Of(Ran(tx, owner, ops).durable.effects, id, writer) == Of(tx.durable.effects, id, writer)
    ensures Of(Ran(tx, owner, ops).working.effects, id, writer) == Of(tx.durable.effects, id, writer)
  {
    if ops != [] {
      var n := |ops| - 1;
      RanSparesOthers(tx, owner, ops[..n], id, writer);
      if ops[n].AutoWrite? {
        OfSnoc(Ran(tx, owner, ops[..n]).working.effects, Effect(owner, Automation, ops[n].what), id, writer);
      }
    }
  }

  lemma SettledSparesOthers(s: Store, c: Claim, plan: Plan, cfg: Config, id: EventId, writer: Writer)
    requires c.id < |s.table| && id != c.id
    ensures Of(Settled(s, c, plan, cfg).effects, id, writer) == Of(s.effects, id, writer)
  {
    var row := s.table[c.id];
    var written := s.(effects := s.effects + Effects(c.id, Orchestrator, HandlerWrites(row, plan, cfg)));
    TableUntouched(s, c.id, plan, cfg);
    OfAppended(s.effects, c.id, Orchestrator, HandlerWrites(row, plan, cfg), id, writer);
    RanSparesOthers(Tx(s, written, false), c.id, AutoOps(row, plan, cfg), id, writer);
  }

  /** What is on file for an event, in its row and by a writer, is decided in its own turn. */
  ghost predicate DecidedAt(s: Store, claims: seq<Claim>, plans: seq<Plan>, cfg: Config, k: nat, writer: Writer,
                            prior: Store)
    requires |plans| == |claims| && DistinctClaims(claims, |s.table|) && k < |claims|
  {
    var id := claims[k].id;
    && |prior.table| == |s.table| && prior.table[id] == s.table[id]
    && Of(prior.effects, id, writer) == Of(s.effects, id, writer)
    && BatchSettled(s, claims, plans, cfg).table[id] == Settled(prior, claims[k], plans[k], cfg).table[id]
    && Of(BatchSettled(s, claims, plans, cfg).effects, id, writer) ==
       Of(Settled(prior, claims[k], plans[k], cfg).effects, id, writer)
  }

  lemma {:induction false} EarlierSpare(s: Store, claims: seq<Claim>, plans: seq<Plan>, cfg: Config,
                                        id: EventId, writer: Writer)
    requires |plans| == |claims| && DistinctClaims(claims, |s.table|) && id < |s.table|
    requires forall k :: 0 <= k < |claims| ==> claims[k].id != id
    ensures BatchSettled(s, claims, plans, cfg).table[id] == s.table[id]
    ensures Of(BatchSettled(s, claims, plans, cfg).effects, id, writer) == Of(s.effects, id, writer)
  {
    if claims != [] {
      var n := |claims| - 1;
      var prior := BatchSettled(s, claims[..n], plans[..n], cfg);
      EarlierSpare(s, claims[..n], plans[..n], cfg, id, writer);
      EventInIsolation(prior, claims[n], plans[n], cfg, id);
      SettledSparesOthers(prior, claims[n], plans[n], cfg, id, writer);
    }
  }

  lemma {:induction false} OwnTurn(s: Store, claims: seq<Claim>, plans: seq<Plan>, cfg: Config, k: nat, writer: Writer)
      returns (prior: Store)
    requires |plans| == |claims| && DistinctClaims(claims, |s.table|) && k < |claims|
    ensures DecidedAt(s, claims, plans, cfg, k, writer, prior)
  {
    var n, id := |claims| - 1, claims[k].id;
    if k == n {
      prior := BatchSettled(s, claims[..n], plans[..n], cfg);
      EarlierSpare(s, claims[..n], plans[..n], cfg, id, writer);
    } else {
      prior := OwnTurn(s, claims[..n], plans[..n], cfg, k, writer);
      var before := BatchSettled(s, claims[..n], plans[..n], cfg);
      EventInIsolation(before, claims[n], plans[n], cfg, id);
      SettledSparesOthers(before, claims[n], plans[n], cfg, id, writer);
    }
  }

  // ---- The outcomes ----

  lemma ExtendedBy(before: seq<Effect>, id: EventId, writer: Writer, whats: seq<nat>)
    ensures Extends(before, before + Effects(id, writer, whats), id, writer, whats)
  {
  }

  lemma RefusedAlone(s: Store, c: Claim, plan: Plan, cfg: Config)
    requires c.id < |s.table| && IsRefused(s.table[c.id], plan, cfg)
    ensures Settled(s, c, plan, cfg).effects == s.effects
    ensures IsFailure(s.table[c.id], Settled(s, c, plan, cfg).table[c.id], c.attempt, plan, cfg)
  {
    Literally(s.table[c.id], plan, cfg);
  }

  /** An event whose handler raises, or that has none, is put back or failed, is not PROCESSED, and
      leaves no writes of its orchestrator or of automation. */
  lemma RefusedEventFails(s: Store, claims: seq<Claim>, plans: seq<Plan>, cfg: Config, k: nat, writer: Writer)
    requires |plans| == |claims| && DistinctClaims(claims, |s.table|) && k < |claims|
    requires s.table[claims[k].id].status == Processing && IsRefused(s.table[claims[k].id], plans[k], cfg)
    ensures var id, after := claims[k].id, BatchSettled(s, claims, plans, cfg);
            && after.table[id].status != Processed
            && IsFailure(s.table[id], after.table[id], claims[k].attempt, plans[k], cfg)
            && Of(after.effects, id, writer) == Of(s.effects, id, writer)
  {
    var prior := OwnTurn(s, claims, plans, cfg, k, writer);
    RefusedAlone(prior, claims[k], plans[k], cfg);
  }

  lemma PlainAlone(s: Store, c: Claim, plan: Plan, cfg: Config)
    requires c.id < |s.table| && !IsRefused(s.table[c.id], plan, cfg) && !IsBooking(s.table[c.id], cfg)
    ensures var after := Settled(s, c, plan, cfg);
            && after.effects ==
               (if plan.commitOk then s.effects + Effects(c.id, Orchestrator, plan.writes) else s.effects)
            && (if plan.commitOk then IsDone(s.table[c.id], after.table[c.id], plan.settledAt)
                else IsFailure(s.table[c.id], after.table[c.id], c.attempt, plan, cfg))
  {
    Literally(s.table[c.id], plan, cfg);
    TableUntouched(s, c.id, plan, cfg);
  }

  /** Without automation, an event whose handler returns is PROCESSED with exactly the writes of its
      handler if the commit succeeds, and otherwise fails with none of them. */
  lemma PlainEventIsProcessed(s: Store, claims: seq<Claim>, plans: seq<Plan>, cfg: Config, k: nat)
    requires |plans| == |claims| && DistinctClaims(claims, |s.table|) && k < |claims|
    requires s.table[claims[k].id].status == Processing
    requires !IsRefused(s.table[claims[k].id], plans[k], cfg) && !IsBooking(s.table[claims[k].id], cfg)
    ensures var id, after := claims[k].id, BatchSettled(s, claims, plans, cfg);
            var writes := Of(after.effects, id, Orchestrator);
            && (after.table[id].status == Processed <==> plans[k].commitOk)
            && (if plans[k].commitOk
                then IsDone(s.table[id], after.table[id], plans[k].settledAt)
                     && Extends(Of(s.effects, id, Orchestrator), writes, id, Orchestrator, plans[k].writes)
                else IsFailure(s.table[id], after.table[id], claims[k].attempt, plans[k], cfg)
                     && writes == Of(s.effects, id, Orchestrator))
  {
    var id := claims[k].id;
    var prior := OwnTurn(s, claims, plans, cfg, k, Orchestrator);
    PlainAlone(prior, claims[k], plans[k], cfg);
    OfAppended(prior.effects, id, Orchestrator, plans[k].writes, id, Orchestrator);
    ExtendedBy(Of(s.effects, id, Orchestrator), id, Orchestrator, plans[k].writes);
  }

  /** Automation that only adds rows. */
  function Adding(whats: seq<nat>): seq<AutoOp> {
    seq(|whats|, i requires 0 <= i < |whats| => AutoWrite(whats[i]))
  }

  lemma {:induction false} AddingRuns(tx: Tx, id: EventId, whats: seq<nat>)
    requires !tx.broken
    ensures Ran(tx, id, Adding(whats)) ==
            tx.(working := tx.working.(effects := tx.working.effects + Effects(id, Automation, whats)))
  {
    if whats == [] {
      assert tx.working.effects + Effects(id, Automation, whats) == tx.working.effects;
    } else {
      var n := |whats| - 1;
      assert Adding(whats)[..n] == Adding(whats[..n]);
      AddingRuns(tx, id, whats[..n]);
      EffectsSnoc(tx.working.effects, id, Automation, whats);
    }
  }

  lemma BookingAlone(s: Store, c: Claim, plan: Plan, cfg: Config, whats: seq<nat>)
    requires c.id < |s.table| && !IsRefused(s.table[c.id], plan, cfg) && IsBooking(s.table[c.id], cfg)
    requires plan.automation.ops == Adding(whats)
    ensures var after := Settled(s, c, plan, cfg);
            && after.effects ==
               (if plan.commitOk
                then s.effects + Effects(c.id, Orchestrator, plan.writes) + Effects(c.id, Automation, whats)
                else s.effects)
            && (if plan.commitOk then IsDone(s.table[c.id], after.table[c.id], plan.settledAt)
                else IsFailure(s.table[c.id], after.table[c.id], c.attempt, plan, cfg))
  {
    Literally(s.table[c.id], plan, cfg);
    TableUntouched(s, c.id, plan, cfg);
    var written := s.(effects := s.effects + Effects(c.id, Orchestrator, plan.writes));
    AddingRuns(Tx(s, written, false), c.id, whats);
  }

  /** Automation that only adds rows does so in the event's own transaction, raising or not: the rows
      of both are there if the commit succeeds, and neither's if it fails. */
  lemma BookingEventIsProcessed(s: Store, claims: seq<Claim>, plans: seq<Plan>, cfg: Config, k: nat,
                                whats: seq<nat>, writer: Writer)
    requires |plans| == |claims| && DistinctClaims(claims, |s.table|) && k < |claims|
    requires s.table[claims[k].id].status == Processing && plans[k].automation.ops == Adding(whats)
    requires !IsRefused(s.table[claims[k].id], plans[k], cfg) && IsBooking(s.table[claims[k].id], cfg)
    ensures var id, after := claims[k].id, BatchSettled(s, claims, plans, cfg);
            && (after.table[id].status == Processed <==> plans[k].commitOk)
            && (if plans[k].commitOk
                then Extends(Of(s.effects, id, writer), Of(after.effects, id, writer), id, writer,
                             if writer == Orchestrator then plans[k].writes else whats)
                else Of(after.effects, id, writer) == Of(s.effects, id, writer))
  {
    var id, writes := claims[k].id, plans[k].writes;
    var prior := OwnTurn(s, claims, plans, cfg, k, writer);
    BookingAlone(prior, claims[k], plans[k], cfg, whats);
    OfAppended(prior.effects, id, Orchestrator, writes, id, writer);
    OfAppended(prior.effects + Effects(id, Orchestrator, writes), id, Automation, whats, id, writer);
    ExtendedBy(Of(s.effects, id, writer), id, writer, if writer == Orchestrator then writes else whats);
  }

  function Returning(plans: seq<Plan>): nat {
    if plans == [] then 0
    else Returning(plans[..|plans| - 1]) + (if plans[|plans| - 1].raises then 0 else 1)
  }

  /** The returned count never exceeds the number of handlers that return. */
  lemma {:induction false} CountIsOfReturningHandlers(s: Store, claims: seq<Claim>, plans: seq<Plan>, cfg: Config)
    requires |plans| == |claims| && DistinctClaims(claims, |s.table|)
    ensures Successes(s, claims, plans, cfg) <= Returning(plans)
  {
    if claims != [] {
      var n := |claims| - 1;
      CountIsOfReturningHandlers(s, claims[..n], plans[..n], cfg);
      LastSucceeds(s, claims, plans, cfg);
      Literally(s.table[claims[n].id], plans[n], cfg);
    }
  }

  // ---- Which rows are claimed ----

  /** Its worker started it longer ago than a lease. */
  predicate IsLost(row: Row, now: int, lease: int) {
    row.status == Processing && row.startedAt.Some? && row.startedAt.value + lease < now
  }

  /** Waiting and due, or lost. */
  predicate IsDue(row: Row, now: int, lease: int) {
    || ((row.status == Pending || row.status == Retryable) && row.availableAt <= now)
    || IsLost(row, now, lease)
  }

  /** When the row fell due: a lost one does now. */
  function DueSince(row: Row, now: int, lease: int): int {
    if IsLost(row, now, lease) then now else row.availableAt
  }

  lemma DueIffEligible(row: Row, now: int, lease: int)
    ensures IsDue(row, now, lease) <==> Eligible(ReclaimedRow(row, now, lease), now)
    ensures IsDue(row, now, lease) ==> ReclaimedRow(row, now, lease).availableAt == DueSince(row, now, lease)
  {
  }

  /** A claim takes due rows that nobody has locked, each once and the longest due first, and leaves
      no such row while it has a place. */
  lemma ClaimTakesTheDue(table: Table, now: int, batch: nat, lease: int, locked: set<EventId>, picked: seq<EventId>)
    requires IsSelection(Reclaimed(table, now, lease), now, batch, locked, picked)
    ensures |picked| <= batch
    ensures forall k :: 0 <= k < |picked| ==>
              picked[k] < |table| && picked[k] !in locked && IsDue(table[picked[k]], now, lease)
    ensures forall j, k :: 0 <= j < k < |picked| ==>
              && picked[j] != picked[k]
              && DueSince(table[picked[j]], now, lease) <= DueSince(table[picked[k]], now, lease)
    ensures forall id :: 0 <= id < |table| && id !in locked && id !in picked && IsDue(table[id], now, lease) ==>
              && |picked| == batch
              && forall k :: 0 <= k < |picked| ==>
                   DueSince(table[picked[k]], now, lease) <= DueSince(table[id], now, lease)
  {
    var reclaimed := Reclaimed(table, now, lease);
    forall id | 0 <= id < |table|
      ensures IsDue(table[id], now, lease) <==> Eligible(reclaimed[id], now)
      ensures IsDue(table[id], now, lease) ==> reclaimed[id].availableAt == DueSince(table[id], now, lease)
    {
      DueIffEligible(table[id], now, lease);
    }
    forall id | 0 <= id < |table| && id !in locked && id !in picked && IsDue(table[id], now, lease)
      ensures |picked| == batch
      ensures forall k :: 0 <= k < |picked| ==>
                DueSince(table[picked[k]], now, lease) <= DueSince(table[id], now, lease)
    {
      assert Candidate(reclaimed, now, locked, id);
    }
  }

  /** A claimed row is PROCESSING from now on with one more attempt; a lost one that is not claimed
      waits from now on; every other row is left alone. */
  lemma ClaimedRowsAreStamped(table: Table, now: int, lease: int, picked: seq<EventId>, id: EventId)
    requires id < |table|
    ensures var row := table[id];
            AfterClaim(table, now, lease, picked)[id] ==
            if id in picked then
              row.(status := Processing, startedAt := Some(now), attempts := row.attempts + 1,
                   availableAt := DueSince(row, now, lease))
            else if IsLost(row, now, lease) then
              row.(status := Retryable, startedAt := None, availableAt := now)
            else row
  {
  }
}
