/** Many workers over one outbox table: claims under a lease, a clock, crashes, lost commits.
    Built on the row updates of Outbox; a step is one committed transaction. */
module OutboxLease {
  import opened Basics
  import opened Outbox

  /** A worker between its claim and the end of its pass: when it claimed, how many events of the
      batch it has finished, those it has not, and since when it is on the first of these. */
  datatype Worker = Worker(claimedAt: int, finished: nat, queue: seq<Claim>, since: int)

  /** `retried` logs every time a worker put an event back: history only. */
  datatype State = State(now: int, table: Table, workers: map<nat, Worker>, retried: seq<Claim>)

  datatype Config = Config(batch: nat, lease: int, handling: nat, maxAttempts: int)

  datatype Outcome = Done | Error(text: string) | ErrorNotRecorded

  datatype Step =
    | Insert(eventType: string, aggregateType: string, availableAt: int)
    | StartPass(worker: nat, locked: set<EventId>, picked: seq<EventId>)
    | Finish(worker: nat, outcome: Outcome)
    | Crash(worker: nat)
    | Tick(to: int)

  const Start := State(0, [], map[], [])

  /** A clock step respects that no live worker spends more than `handling` ticks on an event. */
  ghost predicate Enabled(s: State, step: Step, cfg: Config) {
    match step
    case Insert(_, _, _) => true
    case StartPass(w, locked, picked) =>
      && w !in s.workers && picked != []
      && IsSelection(Reclaimed(s.table, s.now, cfg.lease), s.now, cfg.batch, locked, picked)
    case Finish(w, _) => w in s.workers && s.workers[w].queue != [] && s.workers[w].queue[0].id < |s.table|
    case Crash(w) => w in s.workers
    case Tick(to) => s.now <= to && forall w :: w in s.workers ==> to <= s.workers[w].since + cfg.handling
  }

  /** The row update is by id alone, as in the code: nothing checks that the worker still holds it. */
  function FinishedRow(row: Row, c: Claim, outcome: Outcome, now: int, cfg: Config): Row {
    match outcome
    case Done => DoneRow(row, now)
    case Error(text) => ErrorRow(row, c.attempt, cfg.maxAttempts, text, now)
    case ErrorNotRecorded => row
  }

  function Dequeued(w: Worker, now: int): Worker
    requires w.queue != []
  {
    Worker(w.claimedAt, w.finished + 1, w.queue[1..], now)
  }

  function Apply(s: State, step: Step, cfg: Config): State
    requires step.Finish? ==> step.worker in s.workers && s.workers[step.worker].queue != []
                              && s.workers[step.worker].queue[0].id < |s.table|
    requires step.StartPass? ==> forall k :: 0 <= k < |step.picked| ==> step.picked[k] < |s.table|
  {
    match step
    case Insert(eventType, aggregateType, availableAt) =>
      s.(table := s.table + [Row(eventType, aggregateType, Pending, 0, availableAt, None, None, None)])
    case StartPass(w, _, picked) =>
      var table := AfterClaim(s.table, s.now, cfg.lease, picked);
      s.(table := table, workers := s.workers[w := Worker(s.now, 0, ClaimsOf(table, picked), s.now)])
    case Finish(w, outcome) =>
      var c := s.workers[w].queue[0];
      var rest := Dequeued(s.workers[w], s.now);
      s.(table := s.table[c.id := FinishedRow(s.table[c.id], c, outcome, s.now, cfg)],
         workers := if rest.queue == [] then s.workers - {w} else s.workers[w := rest],
         retried := if outcome.Error? && c.attempt < cfg.maxAttempts then s.retried + [c] else s.retried)
    case Crash(w) => s.(workers := s.workers - {w})
    case Tick(to) => s.(now := to)
  }

  ghost predicate CanStep(s: State, step: Step, s': State, cfg: Config) {
    && Enabled(s, step, cfg)
    && (step.StartPass? ==> forall k :: 0 <= k < |step.picked| ==> step.picked[k] < |s.table|)
    && s' == Apply(s, step, cfg)
  }

  ghost predicate IsTrace(steps: seq<Step>, states: seq<State>, cfg: Config) {
    && |states| == |steps| + 1
    && states[0] == Start
    && forall i :: 0 <= i < |steps| ==> CanStep(states[i], steps[i], states[i + 1], cfg)
  }

  // ---- Mutual exclusion ----

  predicate Holds(w: Worker, id: EventId) {
    exists k :: 0 <= k < |w.queue| && w.queue[k].id == id
  }

  /** The row is the one the worker claimed and nobody has touched it since. */
  predicate Untouched(row: Row, w: Worker, c: Claim) {
    row.status == Processing && row.startedAt == Some(w.claimedAt) && row.attempts == c.attempt
  }

  ghost predicate OnTime(w: Worker, now: int, cfg: Config) {
    && w.queue != [] && w.finished + |w.queue| <= cfg.batch
    && w.claimedAt <= w.since <= now <= w.since + cfg.handling
    && w.since <= w.claimedAt + w.finished * cfg.handling
  }

  ghost predicate QueueOk(w: Worker, table: Table) {
    && (forall k :: 0 <= k < |w.queue| ==> w.queue[k].id < |table| && Untouched(table[w.queue[k].id], w, w.queue[k]))
    && (forall j, k :: 0 <= j < k < |w.queue| ==> w.queue[j].id != w.queue[k].id)
  }

  ghost predicate Exclusive(s: State) {
    forall v, w, id :: v in s.workers && w in s.workers && Holds(s.workers[v], id) && Holds(s.workers[w], id) ==> v == w
  }

  ghost predicate LeaseInv(s: State, cfg: Config) {
    && (forall w :: w in s.workers ==> OnTime(s.workers[w], s.now, cfg) && QueueOk(s.workers[w], s.table))
    && Exclusive(s)
  }

  lemma MulMonotone(a: nat, b: nat, d: nat)
    requires a <= b
    ensures a * d <= b * d
  {
  }

  /** A live worker's claim is never older than the time a whole batch takes. */
  lemma ClaimAge(w: Worker, now: int, cfg: Config)
    requires OnTime(w, now, cfg)
    ensures now - w.claimedAt <= cfg.batch * cfg.handling
  {
    var f, d, b := w.finished, cfg.handling, cfg.batch;
    assert f * d + d == (f + 1) * d;
    MulMonotone(f + 1, b, d);
  }

  ghost predicate WorkerOk(s: State, w: nat, cfg: Config) {
    w in s.workers && OnTime(s.workers[w], s.now, cfg) && QueueOk(s.workers[w], s.table)
  }

  lemma StartKeepsOthers(s: State, step: Step, s': State, v: nat, cfg: Config)
    requires LeaseInv(s, cfg) && cfg.batch * cfg.handling <= cfg.lease
    requires step.StartPass? && CanStep(s, step, s', cfg) && v in s.workers
    ensures WorkerOk(s', v, cfg)
    ensures forall k :: 0 <= k < |s.workers[v].queue| ==> s.workers[v].queue[k].id !in step.picked
  {
    var w := s.workers[v];
    ClaimAge(w, s.now, cfg);
    forall k | 0 <= k < |w.queue|
      ensures w.queue[k].id !in step.picked
      ensures ReclaimedRow(s.table[w.queue[k].id], s.now, cfg.lease) == s.table[w.queue[k].id]
    {
      var id := w.queue[k].id;
      assert Untouched(s.table[id], w, w.queue[k]);
      assert !Stuck(s.table[id], s.now, cfg.lease);
      forall j | 0 <= j < |step.picked| ensures step.picked[j] != id {
        assert Candidate(Reclaimed(s.table, s.now, cfg.lease), s.now, step.locked, step.picked[j]);
      }
    }
  }

  lemma StartedWorkerOk(s: State, step: Step, s': State, cfg: Config)
    requires step.StartPass? && CanStep(s, step, s', cfg)
    ensures WorkerOk(s', step.worker, cfg)
  {
    var w := s'.workers[step.worker];
    forall k | 0 <= k < |w.queue|
      ensures w.queue[k].id < |s'.table| && Untouched(s'.table[w.queue[k].id], w, w.queue[k])
    {
      assert w.queue[k].id == step.picked[k];
    }
  }

  lemma StartKeepsInv(s: State, step: Step, s': State, cfg: Config)
    requires LeaseInv(s, cfg) && cfg.batch * cfg.handling <= cfg.lease
    requires step.StartPass? && CanStep(s, step, s', cfg)
    ensures LeaseInv(s', cfg)
  {
    StartedWorkerOk(s, step, s', cfg);
    forall v | v in s.workers
      ensures WorkerOk(s', v, cfg)
      ensures forall k :: 0 <= k < |s.workers[v].queue| ==> s.workers[v].queue[k].id !in step.picked
    {
      StartKeepsOthers(s, step, s', v, cfg);
    }
    forall v, id | v in s.workers && Holds(s'.workers[v], id) ensures !Holds(s'.workers[step.worker], id) {
      var k :| 0 <= k < |s.workers[v].queue| && s.workers[v].queue[k].id == id;
      assert id !in step.picked;
    }
  }

  lemma FinishKeepsOthers(s: State, step: Step, v: nat, cfg: Config)
    requires LeaseInv(s, cfg) && step.Finish? && Enabled(s, step, cfg)
    requires v in s.workers && v != step.worker
    ensures WorkerOk(Apply(s, step, cfg), v, cfg)
  {
    var w, head := s.workers[v], s.workers[step.worker].queue[0];
    assert Holds(s.workers[step.worker], head.id);
    forall k | 0 <= k < |w.queue| ensures w.queue[k].id != head.id {
      if w.queue[k].id == head.id { assert Holds(w, head.id); }
    }
  }

  lemma FinishKeepsOwn(s: State, step: Step, cfg: Config)
    requires LeaseInv(s, cfg) && step.Finish? && Enabled(s, step, cfg)
    ensures step.worker in Apply(s, step, cfg).workers ==> WorkerOk(Apply(s, step, cfg), step.worker, cfg)
  {
    var s' := Apply(s, step, cfg);
    if step.worker in s'.workers {
      var w, w' := s.workers[step.worker], s'.workers[step.worker];
      var f, d := w.finished, cfg.handling;
      assert f * d + d == (f + 1) * d;
      forall k | 0 <= k < |w'.queue|
        ensures w'.queue[k].id < |s'.table| && Untouched(s'.table[w'.queue[k].id], w', w'.queue[k])
      {
        assert w'.queue[k] == w.queue[k + 1];
        assert w.queue[0].id != w.queue[k + 1].id;
      }
    }
  }

  lemma FinishKeepsInv(s: State, step: Step, cfg: Config)
    requires LeaseInv(s, cfg) && step.Finish? && Enabled(s, step, cfg)
    ensures LeaseInv(Apply(s, step, cfg), cfg)
  {
    var s' := Apply(s, step, cfg);
    FinishKeepsOwn(s, step, cfg);
    forall v | v in s'.workers ensures WorkerOk(s', v, cfg) {
      if v != step.worker { FinishKeepsOthers(s, step, v, cfg); }
    }
    forall v, id | v in s'.workers && Holds(s'.workers[v], id) ensures Holds(s.workers[v], id) {
      var k :| 0 <= k < |s'.workers[v].queue| && s'.workers[v].queue[k].id == id;
      if v == step.worker { assert s.workers[v].queue[k + 1].id == id; }
    }
  }

  lemma InsertKeepsInv(s: State, step: Step, cfg: Config)
    requires LeaseInv(s, cfg) && step.Insert?
    ensures LeaseInv(Apply(s, step, cfg), cfg)
  {
    var s' := Apply(s, step, cfg);
    forall v | v in s.workers ensures QueueOk(s'.workers[v], s'.table) {
      assert QueueOk(s.workers[v], s.table);
    }
  }

  lemma StepKeepsInv(s: State, step: Step, s': State, cfg: Config)
    requires LeaseInv(s, cfg) && CanStep(s, step, s', cfg) && cfg.batch * cfg.handling <= cfg.lease
    ensures LeaseInv(s', cfg)
  {
    match step
    case Insert(_, _, _) => InsertKeepsInv(s, step, cfg);
    case StartPass(_, _, _) => StartKeepsInv(s, step, s', cfg);
    case Finish(_, _) => FinishKeepsInv(s, step, cfg);
    case Crash(_) =>
    case Tick(_) =>
  }

  lemma {:induction false} TraceKeepsInv(steps: seq<Step>, states: seq<State>, i: nat, cfg: Config)
    requires IsTrace(steps, states, cfg) && i < |states| && cfg.batch * cfg.handling <= cfg.lease
    ensures LeaseInv(states[i], cfg)
  {
    if i > 0 {
      TraceKeepsInv(steps, states, i - 1, cfg);
      StepKeepsInv(states[i - 1], steps[i - 1], states[i], cfg);
    }
  }

  /** If a full batch fits in the lease, no event is ever in the hands of two live workers. */
  lemma LeaseExcludes(steps: seq<Step>, states: seq<State>, i: nat, cfg: Config)
    requires IsTrace(steps, states, cfg) && i < |states| && cfg.batch * cfg.handling <= cfg.lease
    ensures Exclusive(states[i])
  {
    TraceKeepsInv(steps, states, i, cfg);
  }

  /** Then the unguarded update by id is safe: whoever settles an event settles the very claim it
      made, never a row that another worker has claimed, processed or failed in the meantime. */
  lemma NoLateOverwrite(steps: seq<Step>, states: seq<State>, i: nat, cfg: Config)
    requires IsTrace(steps, states, cfg) && i < |steps| && cfg.batch * cfg.handling <= cfg.lease
    requires steps[i].Finish?
    ensures CanStep(states[i], steps[i], states[i + 1], cfg)
    ensures var w := states[i].workers[steps[i].worker];
            Untouched(states[i].table[w.queue[0].id], w, w.queue[0])
  {
    TraceKeepsInv(steps, states, i, cfg);
    assert CanStep(states[i], steps[i], states[i + 1], cfg);
  }

  lemma ClaimSparesTerminal(s: State, step: Step, s': State, id: EventId, cfg: Config)
    requires CanStep(s, step, s', cfg) && step.StartPass? && id < |s.table| && Terminal(s.table[id])
    ensures s'.table[id] == s.table[id]
  {
    forall k | 0 <= k < |step.picked| ensures step.picked[k] != id {
      assert Candidate(Reclaimed(s.table, s.now, cfg.lease), s.now, step.locked, step.picked[k]);
    }
  }

  lemma StepSparesTerminal(s: State, step: Step, s': State, id: EventId, cfg: Config)
    requires CanStep(s, step, s', cfg) && id < |s.table| && Terminal(s.table[id])
    requires step.Finish? ==> !Terminal(s.table[s.workers[step.worker].queue[0].id])
    ensures id < |s'.table| && s'.table[id] == s.table[id]
  {
    if step.StartPass? { ClaimSparesTerminal(s, step, s', id, cfg); }
  }

  /** A settled row stays as it is, whatever happens afterwards. */
  lemma {:induction false} TerminalIsFinal(steps: seq<Step>, states: seq<State>, i: nat, j: nat, id: EventId,
                                           cfg: Config)
    requires IsTrace(steps, states, cfg) && i <= j < |states| && cfg.batch * cfg.handling <= cfg.lease
    requires id < |states[i].table| && Terminal(states[i].table[id])
    ensures id < |states[j].table| && states[j].table[id] == states[i].table[id]
  {
    if i < j {
      TerminalIsFinal(steps, states, i, j - 1, id, cfg);
      assert CanStep(states[j - 1], steps[j - 1], states[j], cfg);
      if steps[j - 1].Finish? { NoLateOverwrite(steps, states, j - 1, cfg); }
      StepSparesTerminal(states[j - 1], steps[j - 1], states[j], id, cfg);
    }
  }
}
