/** Repeated passes of the worker empty the outbox: every event ends PROCESSED or FAILED. */
module OutboxDrain {
  import opened Basics
  import opened Outbox
  import opened OutboxWorker
  import opened OutboxBatch

  /** One pass that no crash cuts short. */
  datatype Pass = Pass(now: int, picked: seq<EventId>, plans: seq<Plan>)

  ghost predicate PassOk(s: Store, p: Pass, batch: nat, lease: int) {
    && IsSelection(Reclaimed(s.table, p.now, lease), p.now, batch, {}, p.picked)
    && |p.plans| == |p.picked|
  }

  /** What ProcessOutboxEvents leaves durable. */
  ghost function AfterPass(s: Store, p: Pass, batch: nat, lease: int, cfg: Config): (s': Store)
    requires PassOk(s, p, batch, lease)
    ensures |s'.table| == |s.table|
  {
    ClaimedBatch(s.table, p.now, batch, lease, {}, p.picked);
    PassSettled(s, p.now, lease, p.picked, p.plans, cfg)
  }

  /** The event failed, and so did the commit that was to record it. */
  predicate GoesUnrecorded(row: Row, plan: Plan, cfg: Config) {
    !Processes(row, plan, cfg) && !plan.errorCommitOk
  }

  /** The events of a pass that stay in processing. */
  function Unrecorded(s: Store, picked: seq<EventId>, plans: seq<Plan>, cfg: Config): set<EventId>
    requires |plans| == |picked| && forall k :: 0 <= k < |picked| ==> picked[k] < |s.table|
  {
    if picked == [] then {}
    else
      var n := |picked| - 1;
      var rest := Unrecorded(s, picked[..n], plans[..n], cfg);
      if GoesUnrecorded(s.table[picked[n]], plans[n], cfg) then rest + {picked[n]} else rest
  }

  /** How many more times an event can be handled before it is settled for good. */
  function Rank(row: Row, maxAttempts: int): nat {
    if Terminal(row) then 0
    else if maxAttempts - row.attempts > 1 then maxAttempts - row.attempts else 1
  }

  function Remaining(table: Table, maxAttempts: int): nat {
    if table == [] then 0
    else Remaining(table[..|table| - 1], maxAttempts) + Rank(table[|table| - 1], maxAttempts)
  }

  predicate AllTerminal(table: Table) {
    forall i :: 0 <= i < |table| ==> Terminal(table[i])
  }

  lemma HandlingLowersRank(row: Row, now: int, lease: int, c: Claim, plan: Plan, cfg: Config)
    requires !Terminal(row) && c.attempt == row.attempts + 1
    ensures var after := RowAfter(ClaimedRow(ReclaimedRow(row, now, lease), now), c, plan, cfg);
            if GoesUnrecorded(row, plan, cfg)
            then Rank(after, cfg.maxAttempts) <= Rank(row, cfg.maxAttempts) && after.startedAt == Some(now)
            else Rank(after, cfg.maxAttempts) < Rank(row, cfg.maxAttempts) && after.status != Processing
  {
    var claimed := ClaimedRow(ReclaimedRow(row, now, lease), now);
    assert Processes(claimed, plan, cfg) == Processes(row, plan, cfg);
  }

  lemma PickedRow(s: Store, p: Pass, batch: nat, lease: int, k: nat)
    requires PassOk(s, p, batch, lease) && k < |p.picked|
    ensures p.picked[k] < |s.table| && !Terminal(s.table[p.picked[k]])
  {
    var i := p.picked[k];
    assert Candidate(Reclaimed(s.table, p.now, lease), p.now, {}, i);
    assert Reclaimed(s.table, p.now, lease)[i] == ReclaimedRow(s.table[i], p.now, lease);
  }

  lemma TurnIsPicked(table: Table, picked: seq<EventId>, i: EventId)
    requires forall k :: 0 <= k < |picked| ==> picked[k] < |table|
    ensures TurnOf(ClaimsOf(table, picked), i) >= 0 <==> i in picked
  {
    var claims := ClaimsOf(table, picked);
    assert forall k :: 0 <= k < |picked| ==> claims[k].id == picked[k];
    var k := TurnOf(claims, i);
    if k >= 0 { assert picked[k] == i; }
  }

  /** The row after a pass, whether the event was in the batch or not. */
  lemma RowAfterPass(s: Store, p: Pass, batch: nat, lease: int, cfg: Config, i: EventId) returns (k: int)
    requires PassOk(s, p, batch, lease) && i < |s.table|
    ensures k >= 0 <==> i in p.picked
    ensures k < |p.picked| && (k >= 0 ==> p.picked[k] == i)
    ensures AfterPass(s, p, batch, lease, cfg).table[i] ==
            var row := ReclaimedRow(s.table[i], p.now, lease);
            if k >= 0 then RowAfter(ClaimedRow(row, p.now), Claim(i, row.attempts + 1), p.plans[k], cfg)
            else if p.picked == [] then s.table[i] else row
  {
    if p.picked == [] { return -1; }
    ClaimedBatch(s.table, p.now, batch, lease, {}, p.picked);
    var claimed := s.(table := AfterClaim(s.table, p.now, lease, p.picked));
    var claims := ClaimsOf(claimed.table, p.picked);
    k := TurnOf(claims, i);
    assert k >= 0 <==> i in p.picked by { TurnIsPicked(claimed.table, p.picked, i); }
    assert claimed.table[i] == if i in p.picked then ClaimedRow(ReclaimedRow(s.table[i], p.now, lease), p.now)
                               else ReclaimedRow(s.table[i], p.now, lease);
    BatchIsPointwise(claimed, claims, p.plans, cfg, i);
  }

  lemma {:induction false} UnrecordedAt(s: Store, picked: seq<EventId>, plans: seq<Plan>, cfg: Config, k: nat)
    requires |plans| == |picked| && k < |picked| && forall j :: 0 <= j < |picked| ==> picked[j] < |s.table|
    requires forall j, m :: 0 <= j < m < |picked| ==> picked[j] != picked[m]
    ensures picked[k] in Unrecorded(s, picked, plans, cfg) <==> GoesUnrecorded(s.table[picked[k]], plans[k], cfg)
  {
    var n := |picked| - 1;
    if k < n {
      UnrecordedAt(s, picked[..n], plans[..n], cfg, k);
    } else {
      UnrecordedIsPicked(s, picked[..n], plans[..n], cfg, picked[n]);
    }
  }

  lemma {:induction false} UnrecordedIsPicked(s: Store, picked: seq<EventId>, plans: seq<Plan>, cfg: Config, i: EventId)
    requires |plans| == |picked| && forall j :: 0 <= j < |picked| ==> picked[j] < |s.table|
    ensures i in Unrecorded(s, picked, plans, cfg) ==> i in picked
  {
    if picked != [] {
      var n := |picked| - 1;
      UnrecordedIsPicked(s, picked[..n], plans[..n], cfg, i);
    }
  }

  /** Handling an event lowers its rank, unless the event goes unrecorded. */
  predicate Moved(before: Row, row: Row, unrecorded: bool, now: int, maxAttempts: int) {
    if unrecorded then Rank(row, maxAttempts) <= Rank(before, maxAttempts) && row.startedAt == Some(now)
    else Rank(row, maxAttempts) < Rank(before, maxAttempts) && row.status != Processing
  }

  predicate LeftAlone(before: Row, row: Row, now: int, lease: int) {
    row == before || row == ReclaimedRow(before, now, lease)
  }

  lemma PickedRowMoves(s: Store, p: Pass, batch: nat, lease: int, cfg: Config, k: nat)
    requires PassOk(s, p, batch, lease) && k < |p.picked|
    ensures p.picked[k] < |s.table|
    ensures var before := s.table[p.picked[k]];
            Moved(before, RowAfter(ClaimedRow(ReclaimedRow(before, p.now, lease), p.now),
                                   Claim(p.picked[k], before.attempts + 1), p.plans[k], cfg),
                  GoesUnrecorded(before, p.plans[k], cfg), p.now, cfg.maxAttempts)
  {
    PickedRow(s, p, batch, lease, k);
    var before := s.table[p.picked[k]];
    HandlingLowersRank(before, p.now, lease, Claim(p.picked[k], before.attempts + 1), p.plans[k], cfg);
  }

  lemma PicksExist(s: Store, p: Pass, batch: nat, lease: int)
    requires PassOk(s, p, batch, lease)
    ensures forall k :: 0 <= k < |p.picked| ==> p.picked[k] < |s.table|
  {
    forall k | 0 <= k < |p.picked| ensures p.picked[k] < |s.table| { PickedRow(s, p, batch, lease, k); }
  }

  /** What a pass does to a row. */
  lemma PassMovesRow(s: Store, p: Pass, batch: nat, lease: int, cfg: Config, i: EventId)
    requires PassOk(s, p, batch, lease) && i < |s.table|
    ensures forall k :: 0 <= k < |p.picked| ==> p.picked[k] < |s.table|
    ensures var row := AfterPass(s, p, batch, lease, cfg).table[i];
            if i !in p.picked then LeftAlone(s.table[i], row, p.now, lease)
            else Moved(s.table[i], row, i in Unrecorded(s, p.picked, p.plans, cfg), p.now, cfg.maxAttempts)
  {
    PicksExist(s, p, batch, lease);
    var k := RowAfterPass(s, p, batch, lease, cfg, i);
    if k >= 0 {
      PickedRowMoves(s, p, batch, lease, cfg, k);
      UnrecordedAt(s, p.picked, p.plans, cfg, k);
      assert ReclaimedRow(s.table[i], p.now, lease).attempts == s.table[i].attempts;
    }
  }

  /** The ids below n. */
  function IdsBelow(n: nat): set<EventId> {
    if n == 0 then {} else IdsBelow(n - 1) + {n - 1}
  }

  lemma {:induction false} IdsBelowMember(n: nat, i: EventId)
    ensures i in IdsBelow(n) <==> i < n
  {
    if n > 0 { IdsBelowMember(n - 1, i); }
  }

  lemma {:induction false} RemainingDrops(before: Table, after: Table, dropped: set<EventId>, maxAttempts: int)
    requires |before| == |after| && dropped <= IdsBelow(|before|)
    requires forall i: EventId :: i < |before| ==>
               Rank(after[i], maxAttempts) <= Rank(before[i], maxAttempts) - (if i in dropped then 1 else 0)
    ensures Remaining(after, maxAttempts) + |dropped| <= Remaining(before, maxAttempts)
  {
    if before == [] {
      assert dropped == {};
    } else {
      var n := |before| - 1;
      RemainingDrops(before[..n], after[..n], dropped - {n}, maxAttempts);
      if n in dropped { assert dropped == (dropped - {n}) + {n}; } else { assert dropped - {n} == dropped; }
    }
  }

  function IdsOf(picked: seq<EventId>): set<EventId> {
    if picked == [] then {} else IdsOf(picked[..|picked| - 1]) + {picked[|picked| - 1]}
  }

  lemma {:induction false} IdsOfFacts(picked: seq<EventId>, i: EventId)
    ensures i in IdsOf(picked) <==> i in picked
  {
    if picked != [] {
      var n := |picked| - 1;
      IdsOfFacts(picked[..n], i);
      assert picked == picked[..n] + [picked[n]];
    }
  }

  lemma {:induction false} IdsOfSize(picked: seq<EventId>, n: nat)
    requires forall j, k :: 0 <= j < k < |picked| ==> picked[j] != picked[k]
    requires forall k :: 0 <= k < |picked| ==> picked[k] < n
    ensures |IdsOf(picked)| == |picked| && IdsOf(picked) <= IdsBelow(n)
  {
    if picked != [] {
      var m := |picked| - 1;
      IdsOfSize(picked[..m], n);
      IdsOfFacts(picked[..m], picked[m]);
      IdsBelowMember(n, picked[m]);
    }
  }

  lemma Difference(all: set<EventId>, some: set<EventId>)
    requires some <= all
    ensures |all - some| == |all| - |some|
  {
    assert all == (all - some) + some;
  }

  /** How many events a pass leaves unrecorded. */
  ghost function Losses(s: Store, p: Pass, batch: nat, lease: int, cfg: Config): nat
    requires PassOk(s, p, batch, lease)
  {
    ClaimedBatch(s.table, p.now, batch, lease, {}, p.picked);
    |Unrecorded(s, p.picked, p.plans, cfg)|
  }

  lemma UnrecordedAreHandled(s: Store, p: Pass, batch: nat, lease: int, cfg: Config)
    requires PassOk(s, p, batch, lease)
    ensures forall k :: 0 <= k < |p.picked| ==> p.picked[k] < |s.table|
    ensures Unrecorded(s, p.picked, p.plans, cfg) <= IdsOf(p.picked) <= IdsBelow(|s.table|)
    ensures |IdsOf(p.picked)| == |p.picked|
  {
    PicksExist(s, p, batch, lease);
    IdsOfSize(p.picked, |s.table|);
    forall i | i in Unrecorded(s, p.picked, p.plans, cfg) ensures i in IdsOf(p.picked) {
      UnrecordedIsPicked(s, p.picked, p.plans, cfg, i);
      IdsOfFacts(p.picked, i);
    }
  }

  lemma RankDrops(s: Store, p: Pass, batch: nat, lease: int, cfg: Config, i: EventId)
    requires PassOk(s, p, batch, lease) && i < |s.table|
    requires forall k :: 0 <= k < |p.picked| ==> p.picked[k] < |s.table|
    ensures Rank(AfterPass(s, p, batch, lease, cfg).table[i], cfg.maxAttempts)
         <= Rank(s.table[i], cfg.maxAttempts)
            - (if i in IdsOf(p.picked) - Unrecorded(s, p.picked, p.plans, cfg) then 1 else 0)
  {
    PassMovesRow(s, p, batch, lease, cfg, i);
    IdsOfFacts(p.picked, i);
  }

  /** Every event a pass handles uses up at least one unit of the remaining work, except those
      that go unrecorded. */
  lemma PassUsesWork(s: Store, p: Pass, batch: nat, lease: int, cfg: Config)
    requires PassOk(s, p, batch, lease)
    ensures Remaining(AfterPass(s, p, batch, lease, cfg).table, cfg.maxAttempts) + |p.picked|
         <= Remaining(s.table, cfg.maxAttempts) + Losses(s, p, batch, lease, cfg)
  {
    UnrecordedAreHandled(s, p, batch, lease, cfg);
    var after, handled := AfterPass(s, p, batch, lease, cfg).table, IdsOf(p.picked);
    var recorded := handled - Unrecorded(s, p.picked, p.plans, cfg);
    forall i: EventId | i < |s.table|
      ensures Rank(after[i], cfg.maxAttempts) <= Rank(s.table[i], cfg.maxAttempts) - (if i in recorded then 1 else 0)
    {
      RankDrops(s, p, batch, lease, cfg, i);
    }
    RemainingDrops(s.table, after, recorded, cfg.maxAttempts);
    Difference(handled, Unrecorded(s, p.picked, p.plans, cfg));
  }

  // ---- Waiting long enough ----

  predicate RowDue(row: Row, now: int, lease: int) {
    match row.status
    case Pending => row.availableAt <= now
    case Retryable => row.availableAt <= now
    case Processing => Stuck(row, now, lease)
    case Processed => true
    case Failed => true
  }

  /** Every unsettled event is due, or its lease has run out. */
  predicate AllDue(table: Table, now: int, lease: int) {
    forall i :: 0 <= i < |table| ==> RowDue(table[i], now, lease)
  }

  /** A row in processing says since when; claiming is the only way to get there. */
  predicate Stamped(table: Table) {
    forall i :: 0 <= i < |table| && table[i].status == Processing ==> table[i].startedAt.Some?
  }

  lemma PassKeepsStamps(s: Store, p: Pass, batch: nat, lease: int, cfg: Config)
    requires PassOk(s, p, batch, lease) && Stamped(s.table)
    ensures Stamped(AfterPass(s, p, batch, lease, cfg).table)
  {
    forall i: EventId | i < |s.table| && AfterPass(s, p, batch, lease, cfg).table[i].status == Processing
      ensures AfterPass(s, p, batch, lease, cfg).table[i].startedAt.Some?
    {
      PassMovesRow(s, p, batch, lease, cfg, i);
    }
  }

  /** There is a time from which on everything is due. */
  lemma {:induction false} EventuallyDue(table: Table, lease: int) returns (from: int)
    requires Stamped(table)
    ensures forall now :: from <= now ==> AllDue(table, now, lease)
  {
    if table == [] { return 0; }
    var n := |table| - 1;
    assert Stamped(table[..n]);
    from := EventuallyDue(table[..n], lease);
    var row := table[n];
    var due := if row.status == Processing then row.startedAt.value + lease + 1 else row.availableAt;
    from := if from < due then due else from;
    forall now | from <= now ensures AllDue(table, now, lease) {
      assert AllDue(table[..n], now, lease);
      forall i | 0 <= i < |table| ensures RowDue(table[i], now, lease) {
        if i < n { assert table[..n][i] == table[i]; }
      }
    }
  }

  /** Once everything is due, a pass comes back empty-handed exactly when all is settled. */
  lemma EmptyPassMeansDone(s: Store, p: Pass, batch: nat, lease: int)
    requires PassOk(s, p, batch, lease) && batch >= 1 && AllDue(s.table, p.now, lease)
    ensures p.picked == [] <==> AllTerminal(s.table)
  {
    var reclaimed := Reclaimed(s.table, p.now, lease);
    if p.picked == [] {
      forall i | 0 <= i < |s.table| ensures Terminal(s.table[i]) {
        assert RowDue(s.table[i], p.now, lease);
        assert reclaimed[i] == ReclaimedRow(s.table[i], p.now, lease);
        assert !Terminal(s.table[i]) ==> Candidate(reclaimed, p.now, {}, i);
      }
    } else {
      assert Candidate(reclaimed, p.now, {}, p.picked[0]);
      assert reclaimed[p.picked[0]] == ReclaimedRow(s.table[p.picked[0]], p.now, lease);
    }
  }

  /** From any table there is a next pass that comes late enough, whatever its handlers will do. */
  lemma NextPassExists(s: Store, batch: nat, lease: int, plan: Plan) returns (p: Pass)
    requires Stamped(s.table)
    ensures PassOk(s, p, batch, lease) && AllDue(s.table, p.now, lease)
  {
    var now := EventuallyDue(s.table, lease);
    var picked := SelectionExists(Reclaimed(s.table, now, lease), now, batch, {});
    p := Pass(now, picked, seq(|picked|, _ => plan));
  }

  // ---- Runs of passes ----

  ghost predicate IsDrain(passes: seq<Pass>, stores: seq<Store>, batch: nat, lease: int, cfg: Config) {
    && |stores| == |passes| + 1
    && forall i :: 0 <= i < |passes| ==>
         PassOk(stores[i], passes[i], batch, lease)
         && stores[i + 1] == AfterPass(stores[i], passes[i], batch, lease, cfg)
  }

  function TimesHandled(passes: seq<Pass>): nat {
    if passes == [] then 0 else TimesHandled(passes[..|passes| - 1]) + |passes[|passes| - 1].picked|
  }

  ghost function TimesLost(passes: seq<Pass>, stores: seq<Store>, batch: nat, lease: int, cfg: Config): nat
    requires IsDrain(passes, stores, batch, lease, cfg)
  {
    if passes == [] then 0
    else
      var n := |passes| - 1;
      TimesLost(passes[..n], stores[..n + 1], batch, lease, cfg) + Losses(stores[n], passes[n], batch, lease, cfg)
  }

  lemma {:induction false} DrainUsesWork(passes: seq<Pass>, stores: seq<Store>, batch: nat, lease: int, cfg: Config)
    requires IsDrain(passes, stores, batch, lease, cfg)
    ensures Remaining(stores[|passes|].table, cfg.maxAttempts) + TimesHandled(passes)
         <= Remaining(stores[0].table, cfg.maxAttempts) + TimesLost(passes, stores, batch, lease, cfg)
  {
    if passes != [] {
      var n := |passes| - 1;
      DrainUsesWork(passes[..n], stores[..n + 1], batch, lease, cfg);
      PassUsesWork(stores[n], passes[n], batch, lease, cfg);
    }
  }

  /** However many passes run, and whatever the handlers do, the events they handle, counted with
      repetition, never exceed the sum of the remaining attempts at the start by more than the
      failures that could not be recorded. */
  lemma HandlingIsBounded(passes: seq<Pass>, stores: seq<Store>, batch: nat, lease: int, cfg: Config)
    requires IsDrain(passes, stores, batch, lease, cfg)
    ensures TimesHandled(passes)
         <= Remaining(stores[0].table, cfg.maxAttempts) + TimesLost(passes, stores, batch, lease, cfg)
  {
    DrainUsesWork(passes, stores, batch, lease, cfg);
  }

  lemma {:induction false} NoWorkMeansDone(table: Table, maxAttempts: int)
    requires Remaining(table, maxAttempts) == 0
    ensures AllTerminal(table)
  {
    if table != [] { NoWorkMeansDone(table[..|table| - 1], maxAttempts); }
  }

  lemma SettledStaysSettled(s: Store, p: Pass, batch: nat, lease: int, cfg: Config)
    requires PassOk(s, p, batch, lease) && AllTerminal(s.table)
    ensures AllTerminal(AfterPass(s, p, batch, lease, cfg).table)
  {
    forall i: EventId | i < |s.table| ensures Terminal(AfterPass(s, p, batch, lease, cfg).table[i]) {
      PassMovesRow(s, p, batch, lease, cfg, i);
    }
  }

  lemma {:induction false} DrainProgress(passes: seq<Pass>, stores: seq<Store>, batch: nat, lease: int, cfg: Config)
    requires IsDrain(passes, stores, batch, lease, cfg) && batch >= 1
    requires forall i :: 0 <= i < |passes| ==> AllDue(stores[i].table, passes[i].now, lease)
    ensures AllTerminal(stores[|passes|].table)
         || Remaining(stores[|passes|].table, cfg.maxAttempts) + |passes|
            <= Remaining(stores[0].table, cfg.maxAttempts) + TimesLost(passes, stores, batch, lease, cfg)
  {
    if passes != [] {
      var n := |passes| - 1;
      DrainProgress(passes[..n], stores[..n + 1], batch, lease, cfg);
      EmptyPassMeansDone(stores[n], passes[n], batch, lease);
      PassUsesWork(stores[n], passes[n], batch, lease, cfg);
      if AllTerminal(stores[n].table) { SettledStaysSettled(stores[n], passes[n], batch, lease, cfg); }
    }
  }

  /** Polling ends: passes that each come late enough leave every event PROCESSED or FAILED after
      at most as many passes as there were attempts remaining, plus one for each failure that
      could not be recorded. */
  lemma DrainCompletes(passes: seq<Pass>, stores: seq<Store>, batch: nat, lease: int, cfg: Config)
    requires IsDrain(passes, stores, batch, lease, cfg) && batch >= 1
    requires forall i :: 0 <= i < |passes| ==> AllDue(stores[i].table, passes[i].now, lease)
    requires |passes| >= Remaining(stores[0].table, cfg.maxAttempts) + TimesLost(passes, stores, batch, lease, cfg)
    ensures AllTerminal(stores[|passes|].table)
  {
    DrainProgress(passes, stores, batch, lease, cfg);
    if Remaining(stores[|passes|].table, cfg.maxAttempts) == 0 {
      NoWorkMeansDone(stores[|passes|].table, cfg.maxAttempts);
    }
  }
}
