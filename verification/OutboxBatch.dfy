/** What one pass of the worker does to the rows and to what the handlers wrote: isolation of the
    events of a batch, atomicity of one event, and how far booking automation can interfere. */
module OutboxBatch {
  import opened Basics
  import opened Outbox
  import opened OutboxWorker

  // ---- How booking automation leaves the open transaction ----

  /** What became of the orchestrator's uncommitted writes. */
  datatype Fate = InFlight | Kept | Lost

  predicate BrokenAfter(ops: seq<AutoOp>) {
    if ops == [] then false else
      var before := BrokenAfter(ops[..|ops| - 1]);
      match ops[|ops| - 1]
      case AutoWrite(_) => before
      case AutoCommit(ok) => before || !ok
      case AutoRollback => false
      case AutoFault => true
  }

  /** Decided by the first operation that ends the transaction. */
  function FateOf(ops: seq<AutoOp>): Fate {
    if ops == [] then InFlight else
      var init := ops[..|ops| - 1];
      if FateOf(init) != InFlight then FateOf(init)
      else match ops[|ops| - 1]
        case AutoWrite(_) => InFlight
        case AutoCommit(ok) => if BrokenAfter(init) then InFlight else if ok then Kept else Lost
        case AutoRollback => Lost
        case AutoFault => InFlight
  }

  /** The effects a writer added on behalf of one event, in order. */
  function Of(effects: seq<Effect>, id: EventId, writer: Writer): seq<Effect> {
    if effects == [] then [] else
      var e := effects[|effects| - 1];
      var rest := Of(effects[..|effects| - 1], id, writer);
      if e.event == id && e.writer == writer then rest + [e] else rest
  }

  lemma OfSnoc(effects: seq<Effect>, e: Effect, id: EventId, writer: Writer)
    ensures Of(effects + [e], id, writer) ==
            if e.event == id && e.writer == writer then Of(effects, id, writer) + [e] else Of(effects, id, writer)
  {
    assert (effects + [e])[..|effects|] == effects;
  }

  lemma EffectsSnoc(effects: seq<Effect>, owner: EventId, who: Writer, whats: seq<nat>)
    requires whats != []
    ensures var n := |whats| - 1;
            && Effects(owner, who, whats) == Effects(owner, who, whats[..n]) + [Effect(owner, who, whats[n])]
            && effects + Effects(owner, who, whats) ==
               (effects + Effects(owner, who, whats[..n])) + [Effect(owner, who, whats[n])]
  {
  }

  lemma {:induction false} OfAppended(effects: seq<Effect>, owner: EventId, who: Writer, whats: seq<nat>,
                                      id: EventId, writer: Writer)
    ensures Of(effects + Effects(owner, who, whats), id, writer) ==
            if id == owner && writer == who then Of(effects, id, writer) + Effects(owner, who, whats)
            else Of(effects, id, writer)
  {
    if whats == [] {
      assert effects + Effects(owner, who, whats) == effects;
      assert Of(effects, id, writer) + Effects(owner, who, whats) == Of(effects, id, writer);
    } else {
      var n := |whats| - 1;
      OfAppended(effects, owner, who, whats[..n], id, writer);
      EffectsSnoc(effects, owner, who, whats);
      EffectsSnoc(Of(effects, id, writer), owner, who, whats);
      OfSnoc(effects + Effects(owner, who, whats[..n]), Effect(owner, who, whats[n]), id, writer);
    }
  }

  lemma {:induction false} AutomationFate(tx: Tx, owner: EventId, ops: seq<AutoOp>, id: EventId)
    requires !tx.broken
    ensures var r := Ran(tx, owner, ops);
            var before, open := Of(tx.durable.effects, id, Orchestrator), Of(tx.working.effects, id, Orchestrator);
            && r.broken == BrokenAfter(ops)
            && Of(r.durable.effects, id, Orchestrator) == (if FateOf(ops) == Kept then open else before)
            && (!r.broken ==> Of(r.working.effects, id, Orchestrator) == if FateOf(ops) == Lost then before else open)
            && (FateOf(ops) == InFlight ==> Of(r.working.effects, id, Orchestrator) == open)
  {
    if ops != [] {
      var n := |ops| - 1;
      AutomationFate(tx, owner, ops[..n], id);
      var r := Ran(tx, owner, ops[..n]);
      if ops[n].AutoWrite? {
        OfSnoc(r.working.effects, Effect(owner, Automation, ops[n].what), id, Orchestrator);
      }
    }
  }

  // ---- One event ----

  predicate Processes(row: Row, plan: Plan, cfg: Config) {
    !HandlerRaises(row, plan, cfg) && !BrokenAfter(AutoOps(row, plan, cfg)) && plan.commitOk
  }

  predicate WritesKept(row: Row, plan: Plan, cfg: Config) {
    && !HandlerRaises(row, plan, cfg)
    && var ops := AutoOps(row, plan, cfg);
       (FateOf(ops) == Kept || (FateOf(ops) == InFlight && !BrokenAfter(ops) && plan.commitOk))
  }

  function RowAfter(row: Row, c: Claim, plan: Plan, cfg: Config): Row {
    if Processes(row, plan, cfg) then DoneRow(row, plan.settledAt)
    else if plan.errorCommitOk then ErrorRow(row, c.attempt, cfg.maxAttempts, plan.error, plan.settledAt)
    else row
  }

  function KeptWrites(row: Row, id: EventId, plan: Plan, cfg: Config): seq<Effect> {
    if WritesKept(row, plan, cfg) then Effects(id, Orchestrator, HandlerWrites(row, plan, cfg)) else []
  }

  /** An event changes its own row and nothing else in the table, and adds the orchestrator's
      writes for itself, all or none; `RowAfter` and `WritesKept` see only the row and its plan. */
  lemma EventInIsolation(s: Store, c: Claim, plan: Plan, cfg: Config, id: EventId)
    requires c.id < |s.table|
    ensures Succeeds(s, c.id, plan, cfg) == Processes(s.table[c.id], plan, cfg)
    ensures Settled(s, c, plan, cfg).table == s.table[c.id := RowAfter(s.table[c.id], c, plan, cfg)]
    ensures Of(Settled(s, c, plan, cfg).effects, id, Orchestrator) ==
            if id == c.id then Of(s.effects, id, Orchestrator) + KeptWrites(s.table[c.id], c.id, plan, cfg)
            else Of(s.effects, id, Orchestrator)
  {
    var row := s.table[c.id];
    var writes := HandlerWrites(row, plan, cfg);
    var written := s.(effects := s.effects + Effects(c.id, Orchestrator, writes));
    TableUntouched(s, c.id, plan, cfg);
    AutomationFate(Tx(s, written, false), c.id, AutoOps(row, plan, cfg), id);
    OfAppended(s.effects, c.id, Orchestrator, writes, id, Orchestrator);
  }

  /** Automation does not end the transaction against its outcome: it does not commit an event that
      then fails, nor roll back one that is then marked processed all the same. */
  predicate KeepsTransaction(row: Row, plan: Plan, cfg: Config) {
    var fate := FateOf(AutoOps(row, plan, cfg));
    HandlerRaises(row, plan, cfg) || (if Processes(row, plan, cfg) then fate != Lost else fate != Kept)
  }

  lemma KeptIffProcessed(row: Row, c: Claim, plan: Plan, cfg: Config)
    requires row.status == Processing
    ensures (WritesKept(row, plan, cfg) <==> RowAfter(row, c, plan, cfg).status == Processed)
            <==> KeepsTransaction(row, plan, cfg)
  {
  }

  /** Without automation on the event the session is atomic whatever fails. */
  lemma PlainEventIsAtomic(s: Store, c: Claim, plan: Plan, cfg: Config)
    requires c.id < |s.table| && s.table[c.id].status == Processing && !RunsAutomation(s.table[c.id], cfg)
    ensures var after := Settled(s, c, plan, cfg);
            var done := after.table[c.id].status == Processed;
            var writes := Effects(c.id, Orchestrator, HandlerWrites(s.table[c.id], plan, cfg));
            && after.effects == (if done then s.effects + writes else s.effects)
            && (done <==> !HandlerRaises(s.table[c.id], plan, cfg) && plan.commitOk)
  {
    TableUntouched(s, c.id, plan, cfg);
  }

  /** Both exceptions happen in the code as it is. A calendar or execution step that succeeds
      commits the shared session; if the worker's own commit then fails, the notifications of an
      event that will be retried are already durable. */
  lemma AutomationCommitOutlivesFailure(row: Row, c: Claim, plan: Plan, cfg: Config)
    requires RunsAutomation(row, cfg) && !HandlerRaises(row, plan, cfg) && row.status == Processing
    requires plan.automation.ops == [AutoWrite(0), AutoCommit(true)] && !plan.commitOk && plan.errorCommitOk
    requires c.attempt < cfg.maxAttempts
    ensures RowAfter(row, c, plan, cfg).status == Retryable && WritesKept(row, plan, cfg)
  {
    var ops := plan.automation.ops;
    assert ops[..1] == [AutoWrite(0)] && [AutoWrite(0)][..0] == [];
  }

  /** And a step whose status cannot be committed rolls the shared session back: the event is
      marked processed although the notifications it was to create are gone. */
  lemma AutomationRollbackLosesNotifications(row: Row, c: Claim, plan: Plan, cfg: Config)
    requires RunsAutomation(row, cfg) && !HandlerRaises(row, plan, cfg) && row.status == Processing
    requires plan.automation.ops == [AutoWrite(0), AutoCommit(false), AutoRollback] && plan.commitOk
    ensures RowAfter(row, c, plan, cfg).status == Processed && !WritesKept(row, plan, cfg)
  {
    var ops := plan.automation.ops;
    var two, one, none: seq<AutoOp> := [AutoWrite(0), AutoCommit(false)], [AutoWrite(0)], [];
    assert ops[..2] == two && two[..1] == one && one[..0] == none;
    assert FateOf(one) == InFlight && !BrokenAfter(one);
    assert FateOf(two) == Lost && BrokenAfter(two);
    assert FateOf(ops) == Lost && !BrokenAfter(ops);
  }

  // ---- The batch ----

  ghost predicate DistinctClaims(claims: seq<Claim>, rows: nat) {
    && (forall k :: 0 <= k < |claims| ==> claims[k].id < rows)
    && (forall j, k :: 0 <= j < k < |claims| ==> claims[j].id != claims[k].id)
  }

  /** The place of event `id` in the batch, -1 when it is not in it. */
  function TurnOf(claims: seq<Claim>, id: EventId): (k: int)
    ensures -1 <= k < |claims|
    ensures k >= 0 ==> claims[k].id == id
    ensures k < 0 ==> forall j :: 0 <= j < |claims| ==> claims[j].id != id
  {
    if claims == [] then -1
    else if claims[|claims| - 1].id == id then |claims| - 1
    else TurnOf(claims[..|claims| - 1], id)
  }

  /** What a pass claims is a batch of the kind the lemmas below speak of. */
  lemma ClaimedBatch(table: Table, now: int, batch: nat, lease: int, locked: set<EventId>, picked: seq<EventId>)
    requires IsSelection(Reclaimed(table, now, lease), now, batch, locked, picked)
    ensures var claimed := AfterClaim(table, now, lease, picked);
            var claims := ClaimsOf(claimed, picked);
            && DistinctClaims(claims, |claimed|) && |claims| <= batch
            && forall k :: 0 <= k < |claims| ==>
                 claimed[claims[k].id].status == Processing && claims[k].attempt == table[picked[k]].attempts + 1
  {
    forall k | 0 <= k < |picked| ensures picked[k] < |table| {
      assert Candidate(Reclaimed(table, now, lease), now, locked, picked[k]);
    }
  }

  /** Events of a batch do not see each other: a row outside it keeps its value, a row in it
      gets the value, and an event the writes, it would get if handled alone. */
  lemma {:induction false} BatchIsPointwise(s: Store, claims: seq<Claim>, plans: seq<Plan>, cfg: Config, id: EventId)
    requires |plans| == |claims| && DistinctClaims(claims, |s.table|) && id < |s.table|
    ensures var after, k := BatchSettled(s, claims, plans, cfg), TurnOf(claims, id);
            && after.table[id] == (if k < 0 then s.table[id] else RowAfter(s.table[id], claims[k], plans[k], cfg))
            && Of(after.effects, id, Orchestrator) ==
               if k < 0 then Of(s.effects, id, Orchestrator)
               else Of(s.effects, id, Orchestrator) + KeptWrites(s.table[id], id, plans[k], cfg)
  {
    if claims != [] {
      var n := |claims| - 1;
      var prior := BatchSettled(s, claims[..n], plans[..n], cfg);
      BatchIsPointwise(s, claims[..n], plans[..n], cfg, id);
      EventInIsolation(prior, claims[n], plans[n], cfg, id);
      if claims[n].id == id {
        assert TurnOf(claims[..n], id) < 0;
      }
    }
  }

  /** Whether the batch has made the orchestrator's writes for its k-th event durable. */
  ghost predicate WritesDurable(s: Store, claims: seq<Claim>, plans: seq<Plan>, cfg: Config, k: nat)
    requires |plans| == |claims| && DistinctClaims(claims, |s.table|) && k < |claims|
  {
    var id := claims[k].id;
    Of(BatchSettled(s, claims, plans, cfg).effects, id, Orchestrator) ==
    Of(s.effects, id, Orchestrator) + Effects(id, Orchestrator, HandlerWrites(s.table[id], plans[k], cfg))
  }

  lemma AllOrNone(s: Store, claims: seq<Claim>, plans: seq<Plan>, cfg: Config, k: nat)
    requires |plans| == |claims| && DistinctClaims(claims, |s.table|) && k < |claims|
    requires HandlerWrites(s.table[claims[k].id], plans[k], cfg) != []
    ensures WritesDurable(s, claims, plans, cfg, k) <==> WritesKept(s.table[claims[k].id], plans[k], cfg)
    ensures !WritesDurable(s, claims, plans, cfg, k) ==>
              Of(BatchSettled(s, claims, plans, cfg).effects, claims[k].id, Orchestrator)
              == Of(s.effects, claims[k].id, Orchestrator)
  {
    var id := claims[k].id;
    var writes := Effects(id, Orchestrator, HandlerWrites(s.table[id], plans[k], cfg));
    BatchIsPointwise(s, claims, plans, cfg, id);
    ClaimsTurn(claims, |s.table|, k);
    SameTail(Of(s.effects, id, Orchestrator), KeptWrites(s.table[id], id, plans[k], cfg), writes);
    assert writes != [];
  }

  /** Atomicity of a batch, exactly, in what it leaves durable. An event's writes are there, all or
      none, just when its row is PROCESSED, if and only if automation has not ended its transaction
      against the outcome. */
  lemma AtomicUnlessAutomationEndsTransaction(s: Store, claims: seq<Claim>, plans: seq<Plan>, cfg: Config, k: nat)
    requires |plans| == |claims| && DistinctClaims(claims, |s.table|) && k < |claims|
    requires s.table[claims[k].id].status == Processing && HandlerWrites(s.table[claims[k].id], plans[k], cfg) != []
    ensures var id := claims[k].id;
            && ((WritesDurable(s, claims, plans, cfg, k) <==>
                   BatchSettled(s, claims, plans, cfg).table[id].status == Processed)
                <==> KeepsTransaction(s.table[id], plans[k], cfg))
            && (!WritesDurable(s, claims, plans, cfg, k) ==>
                  Of(BatchSettled(s, claims, plans, cfg).effects, id, Orchestrator) == Of(s.effects, id, Orchestrator))
  {
    var id := claims[k].id;
    AllOrNone(s, claims, plans, cfg, k);
    BatchIsPointwise(s, claims, plans, cfg, id);
    ClaimsTurn(claims, |s.table|, k);
    KeptIffProcessed(s.table[id], claims[k], plans[k], cfg);
  }

  /** The events of the batch that end up processed, judged each by its own row and plan. */
  function DoneIds(s: Store, claims: seq<Claim>, plans: seq<Plan>, cfg: Config): set<EventId>
    requires |plans| == |claims| && forall k :: 0 <= k < |claims| ==> claims[k].id < |s.table|
  {
    if claims == [] then {} else
      var n := |claims| - 1;
      var rest := DoneIds(s, claims[..n], plans[..n], cfg);
      if Processes(s.table[claims[n].id], plans[n], cfg) then rest + {claims[n].id} else rest
  }

  lemma {:induction false} DoneIdsByTurn(s: Store, claims: seq<Claim>, plans: seq<Plan>, cfg: Config, id: EventId)
    requires |plans| == |claims| && DistinctClaims(claims, |s.table|)
    ensures id in DoneIds(s, claims, plans, cfg) <==>
            TurnOf(claims, id) >= 0 && Processes(s.table[id], plans[TurnOf(claims, id)], cfg)
  {
    if claims != [] {
      var n := |claims| - 1;
      DoneIdsByTurn(s, claims[..n], plans[..n], cfg, id);
      if claims[n].id == id { assert TurnOf(claims[..n], id) < 0; }
    }
  }

  /** Whether the last event succeeds does not depend on those before it. */
  lemma LastSucceeds(s: Store, claims: seq<Claim>, plans: seq<Plan>, cfg: Config)
    requires |plans| == |claims| > 0 && DistinctClaims(claims, |s.table|)
    ensures var n := |claims| - 1;
            && Succeeds(BatchSettled(s, claims[..n], plans[..n], cfg), claims[n].id, plans[n], cfg)
               == Processes(s.table[claims[n].id], plans[n], cfg)
            && claims[n].id !in DoneIds(s, claims[..n], plans[..n], cfg)
  {
    var n := |claims| - 1;
    var id := claims[n].id;
    assert TurnOf(claims[..n], id) < 0;
    BatchIsPointwise(s, claims[..n], plans[..n], cfg, id);
    EventInIsolation(BatchSettled(s, claims[..n], plans[..n], cfg), claims[n], plans[n], cfg, id);
    DoneIdsByTurn(s, claims[..n], plans[..n], cfg, id);
  }

  lemma {:induction false} SuccessesAreDoneIds(s: Store, claims: seq<Claim>, plans: seq<Plan>, cfg: Config)
    requires |plans| == |claims| && DistinctClaims(claims, |s.table|)
    ensures Successes(s, claims, plans, cfg) == |DoneIds(s, claims, plans, cfg)|
  {
    if claims != [] {
      SuccessesAreDoneIds(s, claims[..|claims| - 1], plans[..|claims| - 1], cfg);
      LastSucceeds(s, claims, plans, cfg);
    }
  }

  /** The returned count is the number of rows the pass turned PROCESSED. */
  lemma CountIsNewlyProcessed(s: Store, claims: seq<Claim>, plans: seq<Plan>, cfg: Config)
    requires |plans| == |claims| && DistinctClaims(claims, |s.table|)
    requires forall k :: 0 <= k < |claims| ==> s.table[claims[k].id].status == Processing
    ensures Successes(s, claims, plans, cfg) ==
            |set i: EventId | i < |s.table| && BatchSettled(s, claims, plans, cfg).table[i].status == Processed
                              && s.table[i].status != Processed|
  {
    var after := BatchSettled(s, claims, plans, cfg);
    SuccessesAreDoneIds(s, claims, plans, cfg);
    forall i: EventId | i < |s.table|
      ensures i in DoneIds(s, claims, plans, cfg) <==>
              after.table[i].status == Processed && s.table[i].status != Processed
    {
      BatchIsPointwise(s, claims, plans, cfg, i);
      DoneIdsByTurn(s, claims, plans, cfg, i);
    }
    forall i | i in DoneIds(s, claims, plans, cfg) ensures i < |s.table| {
      DoneIdsByTurn(s, claims, plans, cfg, i);
    }
    assert DoneIds(s, claims, plans, cfg) ==
           set i: EventId | i < |s.table| && after.table[i].status == Processed && s.table[i].status != Processed;
  }

  // ---- Non-interference of booking automation, as two runs ----

  /** The same plan in a pass that is given no automation service. */
  function NoAutomation(cfg: Config): Config {
    cfg.(hasAutomation := false)
  }

  /** Automation that the worker cannot notice: if the event would be committed it leaves the
      session usable and discards no orchestrator writes, and if not it commits none. */
  predicate Benign(row: Row, plan: Plan, cfg: Config) {
    var ops := AutoOps(row, plan, cfg);
    || HandlerRaises(row, plan, cfg)
    || (if plan.commitOk then !BrokenAfter(ops) && (HandlerWrites(row, plan, cfg) == [] || FateOf(ops) != Lost)
        else HandlerWrites(row, plan, cfg) == [] || FateOf(ops) != Kept)
  }

  /** One event comes out the same with and without automation exactly when it is benign. */
  lemma EventUnaffectedIffBenign(row: Row, c: Claim, plan: Plan, cfg: Config)
    requires row.status == Processing
    ensures Benign(row, plan, cfg) <==>
            && RowAfter(row, c, plan, cfg) == RowAfter(row, c, plan, NoAutomation(cfg))
            && KeptWrites(row, c.id, plan, cfg) == KeptWrites(row, c.id, plan, NoAutomation(cfg))
  {
    var writes := HandlerWrites(row, plan, cfg);
    assert writes != [] ==> Effects(c.id, Orchestrator, writes) != [];
    assert writes == [] ==> Effects(c.id, Orchestrator, writes) == [];
  }

  /** Nothing about one event tells the two passes apart. */
  ghost predicate SameFor(run: Store, bare: Store, id: EventId)
    requires id < |run.table| && id < |bare.table|
  {
    run.table[id] == bare.table[id] && Of(run.effects, id, Orchestrator) == Of(bare.effects, id, Orchestrator)
  }

  ghost predicate AllBenign(s: Store, claims: seq<Claim>, plans: seq<Plan>, cfg: Config)
    requires |plans| == |claims| && DistinctClaims(claims, |s.table|)
  {
    forall k :: 0 <= k < |claims| ==> Benign(s.table[claims[k].id], plans[k], cfg)
  }

  lemma ClaimsTurn(claims: seq<Claim>, rows: nat, k: nat)
    requires DistinctClaims(claims, rows) && k < |claims|
    ensures TurnOf(claims, claims[k].id) == k
  {
  }

  /** In a batch an event comes out the same exactly when it is not in it or its own turn is benign. */
  lemma SameIffBenign(s: Store, claims: seq<Claim>, plans: seq<Plan>, cfg: Config, id: EventId)
    requires |plans| == |claims| && DistinctClaims(claims, |s.table|) && id < |s.table|
    requires forall k :: 0 <= k < |claims| ==> s.table[claims[k].id].status == Processing
    ensures var k := TurnOf(claims, id);
            SameFor(BatchSettled(s, claims, plans, cfg), BatchSettled(s, claims, plans, NoAutomation(cfg)), id) <==>
            k < 0 || Benign(s.table[id], plans[k], cfg)
  {
    var k := TurnOf(claims, id);
    BatchIsPointwise(s, claims, plans, cfg, id);
    BatchIsPointwise(s, claims, plans, NoAutomation(cfg), id);
    if k >= 0 {
      var before, plan := Of(s.effects, id, Orchestrator), plans[k];
      EventUnaffectedIffBenign(s.table[id], claims[k], plan, cfg);
      SameTail(before, KeptWrites(s.table[id], id, plan, cfg), KeptWrites(s.table[id], id, plan, NoAutomation(cfg)));
    }
  }

  lemma SameTail<T>(a: seq<T>, b: seq<T>, c: seq<T>)
    ensures a + b == a + c <==> b == c
  {
    assert (a + b)[|a|..] == b && (a + c)[|a|..] == c;
  }

  /** The two passes leave the same rows and the same orchestrator writes. */
  ghost predicate AllSame(s: Store, claims: seq<Claim>, plans: seq<Plan>, cfg: Config)
    requires |plans| == |claims| && DistinctClaims(claims, |s.table|)
  {
    forall id: EventId :: id < |s.table| ==>
      SameFor(BatchSettled(s, claims, plans, cfg), BatchSettled(s, claims, plans, NoAutomation(cfg)), id)
  }

  /** Non-interference, exactly: every row and every event's orchestrator writes are those of a pass
      without automation if and only if automation is benign on every event of the batch; and then
      the returned counts agree too. */
  lemma AutomationDoesNotInterfere(s: Store, claims: seq<Claim>, plans: seq<Plan>, cfg: Config)
    requires |plans| == |claims| && DistinctClaims(claims, |s.table|)
    requires forall k :: 0 <= k < |claims| ==> s.table[claims[k].id].status == Processing
    ensures AllSame(s, claims, plans, cfg) <==> AllBenign(s, claims, plans, cfg)
    ensures AllBenign(s, claims, plans, cfg) ==>
              Successes(s, claims, plans, cfg) == Successes(s, claims, plans, NoAutomation(cfg))
  {
    if AllBenign(s, claims, plans, cfg) {
      BenignIsAllSame(s, claims, plans, cfg);
      CountsAgree(s, claims, plans, cfg);
    }
    if AllSame(s, claims, plans, cfg) { AllSameIsBenign(s, claims, plans, cfg); }
  }

  lemma BenignIsAllSame(s: Store, claims: seq<Claim>, plans: seq<Plan>, cfg: Config)
    requires |plans| == |claims| && DistinctClaims(claims, |s.table|) && AllBenign(s, claims, plans, cfg)
    requires forall k :: 0 <= k < |claims| ==> s.table[claims[k].id].status == Processing
    ensures AllSame(s, claims, plans, cfg)
  {
    forall id: EventId | id < |s.table|
      ensures SameFor(BatchSettled(s, claims, plans, cfg), BatchSettled(s, claims, plans, NoAutomation(cfg)), id)
    {
      BenignIsSame(s, claims, plans, cfg, id);
    }
  }

  lemma AllSameIsBenign(s: Store, claims: seq<Claim>, plans: seq<Plan>, cfg: Config)
    requires |plans| == |claims| && DistinctClaims(claims, |s.table|) && AllSame(s, claims, plans, cfg)
    requires forall k :: 0 <= k < |claims| ==> s.table[claims[k].id].status == Processing
    ensures AllBenign(s, claims, plans, cfg)
  {
    forall k | 0 <= k < |claims| ensures Benign(s.table[claims[k].id], plans[k], cfg) {
      SameIsBenign(s, claims, plans, cfg, k);
    }
  }

  lemma BenignIsSame(s: Store, claims: seq<Claim>, plans: seq<Plan>, cfg: Config, id: EventId)
    requires |plans| == |claims| && DistinctClaims(claims, |s.table|) && id < |s.table|
    requires AllBenign(s, claims, plans, cfg)
    requires forall k :: 0 <= k < |claims| ==> s.table[claims[k].id].status == Processing
    ensures SameFor(BatchSettled(s, claims, plans, cfg), BatchSettled(s, claims, plans, NoAutomation(cfg)), id)
  {
    SameIffBenign(s, claims, plans, cfg, id);
  }

  lemma SameIsBenign(s: Store, claims: seq<Claim>, plans: seq<Plan>, cfg: Config, k: nat)
    requires |plans| == |claims| && DistinctClaims(claims, |s.table|) && k < |claims|
    requires forall j :: 0 <= j < |claims| ==> s.table[claims[j].id].status == Processing
    requires SameFor(BatchSettled(s, claims, plans, cfg), BatchSettled(s, claims, plans, NoAutomation(cfg)),
                     claims[k].id)
    ensures Benign(s.table[claims[k].id], plans[k], cfg)
  {
    SameIffBenign(s, claims, plans, cfg, claims[k].id);
    ClaimsTurn(claims, |s.table|, k);
  }

  lemma CountsAgree(s: Store, claims: seq<Claim>, plans: seq<Plan>, cfg: Config)
    requires |plans| == |claims| && DistinctClaims(claims, |s.table|) && AllBenign(s, claims, plans, cfg)
    ensures Successes(s, claims, plans, cfg) == Successes(s, claims, plans, NoAutomation(cfg))
  {
    var bare := NoAutomation(cfg);
    SuccessesAreDoneIds(s, claims, plans, cfg);
    SuccessesAreDoneIds(s, claims, plans, bare);
    forall i ensures i in DoneIds(s, claims, plans, cfg) <==> i in DoneIds(s, claims, plans, bare) {
      DoneIdsByTurn(s, claims, plans, cfg, i);
      DoneIdsByTurn(s, claims, plans, bare, i);
      var k := TurnOf(claims, i);
      if k >= 0 { BenignIsUnnoticed(s.table[claims[k].id], plans[k], cfg); }
    }
    assert DoneIds(s, claims, plans, cfg) == DoneIds(s, claims, plans, bare);
  }

  lemma BenignIsUnnoticed(row: Row, plan: Plan, cfg: Config)
    requires Benign(row, plan, cfg)
    ensures Processes(row, plan, cfg) == Processes(row, plan, NoAutomation(cfg))
  {
  }
}
