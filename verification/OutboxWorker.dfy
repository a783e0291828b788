/** process_outbox_events of backend/app/workers/__init__.py: one pass of one worker over the
    shared database session. Handlers are oracles that write through that session. */
module OutboxWorker {
  import opened Basics
  import opened Outbox

  datatype Writer = Orchestrator | Automation

  /** A row some handler adds on behalf of an event. */
  datatype Effect = Effect(event: EventId, writer: Writer, what: nat)

  datatype Store = Store(table: Table, effects: seq<Effect>)

  // ---- The session ----

  /** What is committed, what the open transaction sees, and whether a failed statement has left
      the transaction unusable until it is rolled back. */
  datatype Tx = Tx(durable: Store, working: Store, broken: bool)

  function Clean(s: Store): Tx {
    Tx(s, s, false)
  }

  function Wrote(tx: Tx, e: Effect): Tx {
    if tx.broken then tx else tx.(working := tx.working.(effects := tx.working.effects + [e]))
  }

  /** A commit that fails keeps nothing and needs a rollback. */
  function Committed(tx: Tx, ok: bool): Tx {
    if tx.broken then tx
    else if ok then tx.(durable := tx.working)
    else tx.(working := tx.durable, broken := true)
  }

  function RolledBack(tx: Tx): Tx {
    Clean(tx.durable)
  }

  class Session {
    var durable: Store
    var working: Store
    var broken: bool

    function View(): Tx
      reads this
    {
      Tx(durable, working, broken)
    }

    constructor (s: Store)
      ensures View() == Clean(s)
    {
      durable, working, broken := s, s, false;
    }

    method Write(e: Effect) returns (raised: bool)
      modifies this
      ensures View() == Wrote(old(View()), e) && raised == old(broken)
    {
      raised := broken;
      if !broken { working := working.(effects := working.effects + [e]); }
    }

    method UpdateRow(id: EventId, row: Row) returns (raised: bool)
      requires id < |working.table|
      modifies this
      ensures raised == old(broken) && durable == old(durable) && broken == old(broken)
      ensures working == if raised then old(working) else old(working).(table := old(working).table[id := row])
    {
      raised := broken;
      if !broken { working := working.(table := working.table[id := row]); }
    }

    method Commit(ok: bool) returns (raised: bool)
      modifies this
      ensures View() == Committed(old(View()), ok) && raised == (old(broken) || !ok)
    {
      raised := broken || !ok;
      if !broken {
        if ok { durable := working; } else { working, broken := durable, true; }
      }
    }

    method Rollback()
      modifies this
      ensures View() == RolledBack(old(View()))
    {
      working, broken := durable, false;
    }

    method Fault()
      modifies this`broken
      ensures broken
    {
      broken := true;
    }
  }

  // ---- OutboxRepository ----

  class OutboxRepository {
    const session: Session

    constructor (session: Session)
      ensures this.session == session
    {
      this.session := session;
    }

    /** `picked` is the database's answer to the claiming query. */
    method ClaimPendingEvents(now: int, batch: nat, lease: int, locked: set<EventId>, picked: seq<EventId>)
        returns (claims: seq<Claim>)
      requires !session.broken
      requires IsSelection(Reclaimed(session.working.table, now, lease), now, batch, locked, picked)
      modifies session
      ensures session.durable == old(session.durable) && !session.broken
      ensures session.working ==
              old(session.working).(table := AfterClaim(old(session.working).table, now, lease, picked))
      ensures claims == ClaimsOf(session.working.table, picked)
    {
      ghost var before := session.working.table;
      var table := Reclaimed(session.working.table, now, lease);
      var k := 0;
      while k < |picked|
        invariant k <= |picked| && |table| == |before|
        invariant forall i :: 0 <= i < |table| ==>
          table[i] == (if i in picked[..k] then ClaimedRow(ReclaimedRow(before[i], now, lease), now)
                       else ReclaimedRow(before[i], now, lease))
      {
        assert picked[k] !in picked[..k];
        table := table[picked[k] := ClaimedRow(table[picked[k]], now)];
        assert picked[..k + 1] == picked[..k] + [picked[k]];
        k := k + 1;
      }
      assert picked[..k] == picked;
      assert table == AfterClaim(before, now, lease, picked);
      session.working := session.working.(table := table);
      claims := ClaimsOf(table, picked);
    }

    method MarkProcessed(id: EventId, now: int) returns (raised: bool)
      requires id < |session.working.table|
      modifies session
      ensures raised == old(session.broken)
      ensures session.durable == old(session.durable) && session.broken == old(session.broken)
      ensures var t := old(session.working).table;
              session.working == if raised then old(session.working)
                                 else old(session.working).(table := t[id := DoneRow(t[id], now)])
    {
      raised := session.UpdateRow(id, DoneRow(session.working.table[id], now));
    }

    method MarkRetryable(id: EventId, error: string, now: int)
      requires id < |session.working.table| && !session.broken
      modifies session
      ensures session.durable == old(session.durable) && !session.broken
      ensures var t := old(session.working).table;
              session.working == old(session.working).(table := t[id := RetryRow(t[id], error, now)])
    {
      var _ := session.UpdateRow(id, RetryRow(session.working.table[id], error, now));
    }

    method MarkFailed(id: EventId, error: string, now: int)
      requires id < |session.working.table| && !session.broken
      modifies session
      ensures session.durable == old(session.durable) && !session.broken
      ensures var t := old(session.working).table;
              session.working == old(session.working).(table := t[id := FailedRow(t[id], error, now)])
    {
      var _ := session.UpdateRow(id, FailedRow(session.working.table[id], error, now));
    }
  }

  // ---- What the handlers may do ----

  /** Booking automation shares the session, and commits and rolls back on it by itself
      (backend/app/domain/booking_automation/service.py:277, :309-312). */
  datatype AutoOp = AutoWrite(what: nat) | AutoCommit(ok: bool) | AutoRollback | AutoFault

  /** One run of the automation; whether it then raises makes no difference to the worker. */
  datatype AutoRun = AutoRun(ops: seq<AutoOp>, raises: bool)

  /** Everything outside the worker's control while it handles one event. */
  datatype Plan = Plan(
    writes: seq<nat>,          // what the orchestrator adds before it returns or raises
    raises: bool,              // the orchestrator raises
    automation: AutoRun,       // what automation does, if it is called
    commitOk: bool,            // the commit after mark_processed succeeds
    errorCommitOk: bool,       // the commit of the error status succeeds
    error: string,             // the text of whatever exception is caught
    settledAt: int)            // the clock when the row is marked

  datatype Config = Config(maxAttempts: int, hasVoice: bool, hasAutomation: bool)

  const BOOKING_EVENTS := {"BOOKING_CONFIRMED", "BOOKING_CANCELLED", "BOOKING_COMPLETED", "BOOKING_IN_PROGRESS"}

  predicate IsVoice(row: Row) {
    "voice." <= row.eventType
  }

  predicate HandlerRaises(row: Row, plan: Plan, cfg: Config) {
    (IsVoice(row) && !cfg.hasVoice) || plan.raises
  }

  /** The orchestrator's writes before it returned or raised; a voice event without a voice
      orchestrator raises before any. */
  function HandlerWrites(row: Row, plan: Plan, cfg: Config): seq<nat> {
    if IsVoice(row) && !cfg.hasVoice then [] else plan.writes
  }

  predicate RunsAutomation(row: Row, cfg: Config) {
    cfg.hasAutomation && row.aggregateType == "booking" && row.eventType in BOOKING_EVENTS
  }

  /** The automation operations that happen once the orchestrator has returned. */
  function AutoOps(row: Row, plan: Plan, cfg: Config): seq<AutoOp> {
    if RunsAutomation(row, cfg) then plan.automation.ops else []
  }

  function Effects(id: EventId, writer: Writer, whats: seq<nat>): seq<Effect> {
    seq(|whats|, k requires 0 <= k < |whats| => Effect(id, writer, whats[k]))
  }

  function Stepped(tx: Tx, id: EventId, op: AutoOp): Tx {
    match op
    case AutoWrite(w) => Wrote(tx, Effect(id, Automation, w))
    case AutoCommit(ok) => Committed(tx, ok)
    case AutoRollback => RolledBack(tx)
    case AutoFault => tx.(broken := true)
  }

  function Ran(tx: Tx, id: EventId, ops: seq<AutoOp>): Tx {
    if ops == [] then tx else Stepped(Ran(tx, id, ops[..|ops| - 1]), id, ops[|ops| - 1])
  }

  // ---- One event, in closed form ----

  /** The session when the worker is about to mark the event processed. */
  function Handled(s: Store, id: EventId, plan: Plan, cfg: Config): Tx
    requires id < |s.table|
  {
    var row := s.table[id];
    var written := s.(effects := s.effects + Effects(id, Orchestrator, HandlerWrites(row, plan, cfg)));
    Ran(Tx(s, written, false), id, AutoOps(row, plan, cfg))
  }

  predicate Succeeds(s: Store, id: EventId, plan: Plan, cfg: Config)
    requires id < |s.table|
  {
    !HandlerRaises(s.table[id], plan, cfg) && !Handled(s, id, plan, cfg).broken && plan.commitOk
  }

  /** What is durable after the event, given what was before it. */
  function Settled(s: Store, c: Claim, plan: Plan, cfg: Config): Store
    requires c.id < |s.table|
    ensures |Settled(s, c, plan, cfg).table| == |s.table|
  {
    TableUntouched(s, c.id, plan, cfg);
    if Succeeds(s, c.id, plan, cfg) then
      var w := Handled(s, c.id, plan, cfg).working;
      w.(table := w.table[c.id := DoneRow(w.table[c.id], plan.settledAt)])
    else
      var kept := if HandlerRaises(s.table[c.id], plan, cfg) then s else Handled(s, c.id, plan, cfg).durable;
      if plan.errorCommitOk
      then
        var row := ErrorRow(kept.table[c.id], c.attempt, cfg.maxAttempts, plan.error, plan.settledAt);
        kept.(table := kept.table[c.id := row])
      else kept
  }

  lemma {:induction false} RunKeepsTables(tx: Tx, id: EventId, ops: seq<AutoOp>)
    requires tx.durable.table == tx.working.table
    ensures Ran(tx, id, ops).durable.table == Ran(tx, id, ops).working.table == tx.durable.table
  {
    if ops != [] { RunKeepsTables(tx, id, ops[..|ops| - 1]); }
  }

  lemma TableUntouched(s: Store, id: EventId, plan: Plan, cfg: Config)
    requires id < |s.table|
    ensures Handled(s, id, plan, cfg).durable.table == Handled(s, id, plan, cfg).working.table == s.table
  {
    var written := s.(effects := s.effects + Effects(id, Orchestrator, HandlerWrites(s.table[id], plan, cfg)));
    RunKeepsTables(Tx(s, written, false), id, AutoOps(s.table[id], plan, cfg));
  }

  /** The batch is the events handled alone, one after the other. */
  function BatchSettled(s: Store, claims: seq<Claim>, plans: seq<Plan>, cfg: Config): Store
    requires |plans| == |claims|
    requires forall k :: 0 <= k < |claims| ==> claims[k].id < |s.table|
    ensures |BatchSettled(s, claims, plans, cfg).table| == |s.table|
  {
    if claims == [] then s else
      var n := |claims| - 1;
      Settled(BatchSettled(s, claims[..n], plans[..n], cfg), claims[n], plans[n], cfg)
  }

  /** The number of events handled successfully. */
  function Successes(s: Store, claims: seq<Claim>, plans: seq<Plan>, cfg: Config): nat
    requires |plans| == |claims|
    requires forall k :: 0 <= k < |claims| ==> claims[k].id < |s.table|
  {
    if claims == [] then 0 else
      var n := |claims| - 1;
      Successes(s, claims[..n], plans[..n], cfg)
      + (if Succeeds(BatchSettled(s, claims[..n], plans[..n], cfg), claims[n].id, plans[n], cfg) then 1 else 0)
  }

  /** The store, and the successes, after the first k events. */
  function Progress(s: Store, claims: seq<Claim>, plans: seq<Plan>, cfg: Config, k: nat): (p: (Store, nat))
    requires k <= |claims| == |plans|
    requires forall j :: 0 <= j < |claims| ==> claims[j].id < |s.table|
    ensures |p.0.table| == |s.table|
  {
    (BatchSettled(s, claims[..k], plans[..k], cfg), Successes(s, claims[..k], plans[..k], cfg))
  }

  lemma OneMore(s: Store, claims: seq<Claim>, plans: seq<Plan>, cfg: Config, k: nat)
    requires k < |claims| == |plans|
    requires forall j :: 0 <= j < |claims| ==> claims[j].id < |s.table|
    ensures var p := Progress(s, claims, plans, cfg, k);
            Progress(s, claims, plans, cfg, k + 1) ==
            (Settled(p.0, claims[k], plans[k], cfg),
             p.1 + (if Succeeds(p.0, claims[k].id, plans[k], cfg) then 1 else 0))
  {
    assert claims[..k + 1][..k] == claims[..k] && plans[..k + 1][..k] == plans[..k];
  }

  lemma AllDone(s: Store, claims: seq<Claim>, plans: seq<Plan>, cfg: Config)
    requires |claims| == |plans|
    requires forall j :: 0 <= j < |claims| ==> claims[j].id < |s.table|
    ensures Progress(s, claims, plans, cfg, 0) == (s, 0)
    ensures Progress(s, claims, plans, cfg, |claims|)
         == (BatchSettled(s, claims, plans, cfg), Successes(s, claims, plans, cfg))
  {
    assert claims[..|claims|] == claims && plans[..|plans|] == plans;
  }

  /** What a pass leaves durable once its claim is committed. A pass that claims nothing returns
      before it commits, so nothing is reclaimed either. */
  function PassSettled(s: Store, now: int, lease: int, picked: seq<EventId>, plans: seq<Plan>,
                       cfg: Config): (after: Store)
    requires |plans| == |picked| && forall k :: 0 <= k < |picked| ==> picked[k] < |s.table|
    ensures |after.table| == |s.table|
  {
    if picked == [] then s
    else
      var claimed := s.(table := AfterClaim(s.table, now, lease, picked));
      BatchSettled(claimed, ClaimsOf(claimed.table, picked), plans, cfg)
  }

  // ---- The pass ----

  class Worker {
    const session: Session
    const repo: OutboxRepository
    const cfg: Config

    constructor (session: Session, cfg: Config)
      ensures this.session == session && this.cfg == cfg && repo.session == session
    {
      this.session, this.cfg := session, cfg;
      repo := new OutboxRepository(session);
    }

    predicate Wired() {
      repo.session == session
    }

    method RunAutomation(id: EventId, ops: seq<AutoOp>)
      modifies session
      ensures session.View() == Ran(old(session.View()), id, ops)
    {
      var k := 0;
      while k < |ops|
        invariant k <= |ops|
        invariant session.View() == Ran(old(session.View()), id, ops[..k])
      {
        match ops[k] {
          case AutoWrite(w) => var _ := session.Write(Effect(id, Automation, w));
          case AutoCommit(ok) => var _ := session.Commit(ok);
          case AutoRollback => session.Rollback();
          case AutoFault => session.Fault();
        }
        assert ops[..k + 1][..k] == ops[..k];
        k := k + 1;
      }
      assert ops[..k] == ops;
    }

    method RunOrchestrator(id: EventId, whats: seq<nat>)
      requires !session.broken
      modifies session
      ensures session.durable == old(session.durable) && !session.broken
      ensures session.working ==
              old(session.working).(effects := old(session.working).effects + Effects(id, Orchestrator, whats))
    {
      ghost var before := session.working;
      var k := 0;
      while k < |whats|
        invariant k <= |whats|
        invariant session.durable == old(session.durable) && !session.broken
        invariant session.working == before.(effects := before.effects + Effects(id, Orchestrator, whats[..k]))
      {
        var _ := session.Write(Effect(id, Orchestrator, whats[k]));
        assert Effects(id, Orchestrator, whats[..k + 1]) ==
               Effects(id, Orchestrator, whats[..k]) + [Effect(id, Orchestrator, whats[k])];
        k := k + 1;
      }
      assert whats[..k] == whats;
    }

    /** The try block: true when the event was marked processed and committed. */
    method TryEvent(c: Claim, plan: Plan) returns (ok: bool)
      requires Wired() && session.View() == Clean(session.durable) && c.id < |session.durable.table|
      modifies session
      ensures var s := old(session.durable);
              && ok == Succeeds(s, c.id, plan, cfg)
              && (ok ==> session.View() == Clean(Settled(s, c, plan, cfg)))
              && (!ok ==> session.durable ==
                          if HandlerRaises(s.table[c.id], plan, cfg) then s else Handled(s, c.id, plan, cfg).durable)
    {
      var row := session.durable.table[c.id];
      TableUntouched(session.durable, c.id, plan, cfg);
      RunOrchestrator(c.id, HandlerWrites(row, plan, cfg));
      if HandlerRaises(row, plan, cfg) { return false; }
      if RunsAutomation(row, cfg) {
        RunAutomation(c.id, plan.automation.ops);
      }
      var raised := repo.MarkProcessed(c.id, plan.settledAt);
      if raised { return false; }
      raised := session.Commit(plan.commitOk);
      return !raised;
    }

    /** The body of the loop: the try block, then the except block when it raised. */
    method HandleEvent(c: Claim, plan: Plan) returns (ok: bool)
      requires Wired() && session.View() == Clean(session.durable) && c.id < |session.durable.table|
      modifies session
      ensures ok == Succeeds(old(session.durable), c.id, plan, cfg)
      ensures session.View() == Clean(Settled(old(session.durable), c, plan, cfg))
    {
      TableUntouched(session.durable, c.id, plan, cfg);
      ok := TryEvent(c, plan);
      if !ok {
        session.Rollback();
        if c.attempt >= cfg.maxAttempts {
          repo.MarkFailed(c.id, Truncated(plan.error), plan.settledAt);
        } else {
          repo.MarkRetryable(c.id, Truncated(plan.error), plan.settledAt);
        }
        var raised := session.Commit(plan.errorCommitOk);
        if raised { session.Rollback(); }
      }
    }

    /** One turn of the loop, as progress through the batch. */
    method HandleNth(ghost claimed: Store, events: seq<Claim>, plans: seq<Plan>, k: nat) returns (ok: bool)
      requires Wired() && k < |events| == |plans|
      requires forall j :: 0 <= j < |events| ==> events[j].id < |claimed.table|
      requires session.View() == Clean(Progress(claimed, events, plans, cfg, k).0)
      modifies session
      ensures session.View() == Clean(Progress(claimed, events, plans, cfg, k + 1).0)
      ensures Progress(claimed, events, plans, cfg, k + 1).1 ==
              Progress(claimed, events, plans, cfg, k).1 + (if ok then 1 else 0)
    {
      OneMore(claimed, events, plans, cfg, k);
      ok := HandleEvent(events[k], plans[k]);
    }

    /** The loop: every event in its own transaction. */
    method HandleEvents(events: seq<Claim>, plans: seq<Plan>) returns (processed: nat)
      requires Wired() && session.View() == Clean(session.durable) && |plans| == |events|
      requires forall k :: 0 <= k < |events| ==> events[k].id < |session.durable.table|
      modifies session
      ensures session.View() == Clean(BatchSettled(old(session.durable), events, plans, cfg))
      ensures processed == Successes(old(session.durable), events, plans, cfg)
    {
      ghost var claimed := session.durable;
      AllDone(claimed, events, plans, cfg);
      ghost var progress := Progress(claimed, events, plans, cfg, 0);
      processed := 0;
      var k := 0;
      while k < |events|
        invariant k <= |events| && progress == Progress(claimed, events, plans, cfg, k)
        invariant session.View() == Clean(progress.0) && processed == progress.1
      {
        var ok := HandleNth(claimed, events, plans, k);
        if ok { processed := processed + 1; }
        k := k + 1;
        progress := Progress(claimed, events, plans, cfg, k);
      }
    }

    /** One pass. `claimCommitOk` false is the claim commit raising out of the pass. */
    method ProcessOutboxEvents(now: int, batch: nat, lease: int, locked: set<EventId>, picked: seq<EventId>,
                               claimCommitOk: bool, plans: seq<Plan>) returns (processed: nat)
      requires Wired() && session.View() == Clean(session.durable) && |plans| == |picked|
      requires IsSelection(Reclaimed(session.durable.table, now, lease), now, batch, locked, picked)
      modifies session
      ensures picked == [] || !claimCommitOk ==> processed == 0
      ensures session.durable == if claimCommitOk then PassSettled(old(session.durable), now, lease, picked, plans, cfg)
                                 else old(session.durable)
      ensures picked != [] && claimCommitOk ==>
                var before := old(session.durable);
                var claimed := before.(table := AfterClaim(before.table, now, lease, picked));
                && session.View() == Clean(session.durable)
                && processed == Successes(claimed, ClaimsOf(claimed.table, picked), plans, cfg)
    {
      var events := repo.ClaimPendingEvents(now, batch, lease, locked, picked);
      if events == [] { return 0; }
      var raised := session.Commit(claimCommitOk);
      if raised { return 0; }
      processed := HandleEvents(events, plans);
    }
  }
}
