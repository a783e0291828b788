/** Where the guarantees of the outbox protocol end: how often an event is put back, what crashes
    do to the attempt limit, and why the lease must cover a whole batch. */
module OutboxLimits {
  import opened Basics
  import opened Outbox
  import opened OutboxLease

  // ---- An event is put back at most maxAttempts - 1 times ----

  ghost predicate ClaimFits(c: Claim, table: Table) {
    c.id < |table| && 1 <= c.attempt <= table[c.id].attempts
  }

  ghost predicate QueueFits(s: State, w: nat)
    requires w in s.workers
  {
    && (forall c :: c in s.workers[w].queue ==> ClaimFits(c, s.table) && c !in s.retried)
    && NoRepeats(s.workers[w].queue)
  }

  /** No assumption on the lease: every claim is made, and settled, at most once. */
  ghost predicate RetryInv(s: State, cfg: Config) {
    && (forall i :: 0 <= i < |s.table| ==> s.table[i].attempts >= 0)
    && (forall c :: c in s.retried ==> ClaimFits(c, s.table) && c.attempt < cfg.maxAttempts)
    && NoRepeats(s.retried)
    && (forall w :: w in s.workers ==> QueueFits(s, w))
    && (forall v, w, c :: (v in s.workers && c in s.workers[v].queue) && (w in s.workers && c in s.workers[w].queue) ==>
          v == w)
  }

  lemma AttemptsOnlyGrow(s: State, step: Step, s': State, cfg: Config)
    requires CanStep(s, step, s', cfg)
    ensures |s.table| <= |s'.table|
    ensures forall i :: 0 <= i < |s.table| ==> s.table[i].attempts <= s'.table[i].attempts
    ensures forall c :: ClaimFits(c, s.table) ==> ClaimFits(c, s'.table)
  {
  }

  lemma StartKeepsRetryInv(s: State, step: Step, s': State, cfg: Config)
    requires RetryInv(s, cfg) && CanStep(s, step, s', cfg) && step.StartPass?
    ensures RetryInv(s', cfg)
  {
    AttemptsOnlyGrow(s, step, s', cfg);
    var q := s'.workers[step.worker].queue;
    forall c | c in q
      ensures ClaimFits(c, s'.table) && !ClaimFits(c, s.table)
    {
      var k :| 0 <= k < |q| && q[k] == c;
      assert c.id == step.picked[k];
      assert c.attempt == s.table[c.id].attempts + 1;
    }
    forall j, k | 0 <= j < k < |q| ensures q[j] != q[k] {
      assert step.picked[j] != step.picked[k];
    }
    forall w | w in s'.workers ensures QueueFits(s', w) {
      if w != step.worker { assert QueueFits(s, w); }
    }
    forall v, c | v in s.workers && c in s.workers[v].queue ensures c !in q {
      assert QueueFits(s, v);
    }
  }

  lemma FinishKeepsRetryInv(s: State, step: Step, s': State, cfg: Config)
    requires RetryInv(s, cfg) && CanStep(s, step, s', cfg) && step.Finish?
    ensures RetryInv(s', cfg)
  {
    AttemptsOnlyGrow(s, step, s', cfg);
    var w := s.workers[step.worker];
    var c := w.queue[0];
    assert QueueFits(s, step.worker) && c in w.queue;
    forall v | v in s'.workers
      ensures forall d :: d in s'.workers[v].queue ==> d in s.workers[v].queue && d != c
      ensures QueueFits(s', v)
    {
      assert QueueFits(s, v);
      if v == step.worker {
        var q' := s'.workers[v].queue;
        forall d | d in q' ensures d in w.queue && d != c {
          var k :| 0 <= k < |q'| && q'[k] == d;
          assert w.queue[k + 1] == d && w.queue[0] != w.queue[k + 1];
        }
      }
    }
  }

  lemma StepKeepsRetryInv(s: State, step: Step, s': State, cfg: Config)
    requires RetryInv(s, cfg) && CanStep(s, step, s', cfg)
    ensures RetryInv(s', cfg)
  {
    match step
    case StartPass(_, _, _) => StartKeepsRetryInv(s, step, s', cfg);
    case Finish(_, _) => FinishKeepsRetryInv(s, step, s', cfg);
    case Insert(_, _, _) =>
      AttemptsOnlyGrow(s, step, s', cfg);
      forall w | w in s'.workers ensures QueueFits(s', w) { assert QueueFits(s, w); }
    case Crash(_) =>
      forall w | w in s'.workers ensures QueueFits(s', w) { assert QueueFits(s, w); }
    case Tick(_) =>
      forall w | w in s'.workers ensures QueueFits(s', w) { assert QueueFits(s, w); }
  }

  lemma {:induction false} TraceKeepsRetryInv(steps: seq<Step>, states: seq<State>, i: nat, cfg: Config)
    requires IsTrace(steps, states, cfg) && i < |states|
    ensures RetryInv(states[i], cfg)
  {
    if i > 0 {
      TraceKeepsRetryInv(steps, states, i - 1, cfg);
      StepKeepsRetryInv(states[i - 1], steps[i - 1], states[i], cfg);
    }
  }

  /** How often `id` was put back as retryable. */
  function TimesPutBack(retried: seq<Claim>, id: EventId): nat {
    if retried == [] then 0
    else TimesPutBack(retried[..|retried| - 1], id) + (if retried[|retried| - 1].id == id then 1 else 0)
  }

  function AttemptsOf(retried: seq<Claim>, id: EventId): set<int> {
    set k | 0 <= k < |retried| && retried[k].id == id :: retried[k].attempt
  }

  lemma {:induction false} CountIsAttempts(retried: seq<Claim>, id: EventId)
    requires NoRepeats(retried)
    ensures TimesPutBack(retried, id) == |AttemptsOf(retried, id)|
  {
    if retried == [] {
      assert AttemptsOf(retried, id) == {};
    } else {
      var init, c := retried[..|retried| - 1], retried[|retried| - 1];
      CountIsAttempts(init, id);
      assert forall k :: 0 <= k < |init| ==> init[k] == retried[k];
      if c.id == id {
        assert AttemptsOf(retried, id) == AttemptsOf(init, id) + {c.attempt};
        assert c.attempt !in AttemptsOf(init, id);
      } else {
        assert AttemptsOf(retried, id) == AttemptsOf(init, id);
      }
    }
  }

  function UpTo(n: nat): set<int> {
    if n == 0 then {} else UpTo(n - 1) + {n}
  }

  lemma {:induction false} UpToFacts(n: nat)
    ensures forall x: int :: x in UpTo(n) <==> 1 <= x <= n
    ensures |UpTo(n)| == n
  {
    if n > 0 { UpToFacts(n - 1); }
  }

  /** In every run, crashes and overlapping claims included, workers put an event back as
      retryable at most maxAttempts - 1 times. */
  lemma PutBackBound(steps: seq<Step>, states: seq<State>, i: nat, id: EventId, cfg: Config)
    requires IsTrace(steps, states, cfg) && i < |states|
    ensures TimesPutBack(states[i].retried, id) <= Max(0, cfg.maxAttempts - 1)
  {
    TraceKeepsRetryInv(steps, states, i, cfg);
    var r := states[i].retried;
    CountIsAttempts(r, id);
    forall x | x in AttemptsOf(r, id) ensures 1 <= x <= Max(0, cfg.maxAttempts - 1) {
      var k :| 0 <= k < |r| && r[k].id == id && r[k].attempt == x;
      assert r[k] in r;
    }
    UpToFacts(Max(0, cfg.maxAttempts - 1));
    SubsetSize(AttemptsOf(r, id), UpTo(Max(0, cfg.maxAttempts - 1)));
  }

  // ---- Runs as witnesses ----

  lemma Extend(steps: seq<Step>, states: seq<State>, step: Step, s': State, cfg: Config)
    requires IsTrace(steps, states, cfg) && CanStep(states[|steps|], step, s', cfg)
    ensures IsTrace(steps + [step], states + [s'], cfg)
  {
    var steps', states' := steps + [step], states + [s'];
    forall i | 0 <= i < |steps'| ensures CanStep(states'[i], steps'[i], states'[i + 1], cfg) {
      if i < |steps| {
        assert states'[i] == states[i] && states'[i + 1] == states[i + 1] && steps'[i] == steps[i];
      }
    }
  }

  ghost predicate Reaches(s: State, cfg: Config) {
    exists steps: seq<Step>, states: seq<State> :: IsTrace(steps, states, cfg) && states[|steps|] == s
  }

  lemma ReachesNext(s: State, step: Step, s': State, cfg: Config)
    requires Reaches(s, cfg) && CanStep(s, step, s', cfg)
    ensures Reaches(s', cfg)
  {
    var steps: seq<Step>, states: seq<State> :| IsTrace(steps, states, cfg) && states[|steps|] == s;
    Extend(steps, states, step, s', cfg);
    assert (states + [s'])[|steps + [step]|] == s';
  }

  lemma ReachesStart(cfg: Config)
    ensures Reaches(Start, cfg)
  {
    var steps: seq<Step> := [];
    var states := [Start];
    assert IsTrace(steps, states, cfg) && states[|steps|] == Start;
  }

  const FRESH := Row("e", "a", Pending, 0, 0, None, None, None)

  // ---- Crashes escape the attempt limit ----

  function CrashPeriod(cfg: Config): nat {
    Max(0, cfg.lease) + 1
  }

  /** One event claimed n times, each time by a worker that crashed. */
  function CrashedState(n: nat, cfg: Config): State {
    var p := CrashPeriod(cfg);
    State(n * p,
          [if n == 0 then FRESH
           else FRESH.(status := Processing, attempts := n,
                       availableAt := (n - 1) * p, startedAt := Some((n - 1) * p))],
          map[], [])
  }

  lemma CrashedEventIsDue(n: nat, cfg: Config)
    ensures var s := CrashedState(n, cfg);
            var row := ReclaimedRow(s.table[0], s.now, cfg.lease);
            && Reclaimed(s.table, s.now, cfg.lease) == [row] && Eligible(row, s.now)
            && ClaimedRow(row, s.now) == CrashedState(n + 1, cfg).table[0]
  {
    var p := CrashPeriod(cfg);
    assert n * p == (n - 1) * p + p;
  }

  lemma CrashedEventIsSelected(n: nat, cfg: Config)
    requires cfg.batch >= 1
    ensures IsSelection(Reclaimed(CrashedState(n, cfg).table, CrashedState(n, cfg).now, cfg.lease),
                        CrashedState(n, cfg).now, cfg.batch, {}, [0])
    ensures AfterClaim(CrashedState(n, cfg).table, CrashedState(n, cfg).now, cfg.lease, [0])
         == CrashedState(n + 1, cfg).table
  {
    CrashedEventIsDue(n, cfg);
    assert 0 in [0];
  }

  function ClaimedThenCrashing(n: nat, cfg: Config): State {
    var s, table := CrashedState(n, cfg), CrashedState(n + 1, cfg).table;
    State(s.now, table, map[0 := Worker(s.now, 0, ClaimsOf(table, [0]), s.now)], [])
  }

  lemma ClaimStep(n: nat, cfg: Config)
    requires cfg.batch >= 1
    ensures CanStep(CrashedState(n, cfg), StartPass(0, {}, [0]), ClaimedThenCrashing(n, cfg), cfg)
  {
    CrashedEventIsSelected(n, cfg);
  }

  lemma CrashStep(n: nat, cfg: Config)
    ensures CanStep(ClaimedThenCrashing(n, cfg), Crash(0), ClaimedThenCrashing(n, cfg).(workers := map[]), cfg)
  {
    assert ClaimedThenCrashing(n, cfg).workers - {0} == map[];
  }

  lemma WaitStep(n: nat, cfg: Config)
    ensures CanStep(ClaimedThenCrashing(n, cfg).(workers := map[]), Tick((n + 1) * CrashPeriod(cfg)),
                    CrashedState(n + 1, cfg), cfg)
  {
    assert (n + 1) * CrashPeriod(cfg) == n * CrashPeriod(cfg) + CrashPeriod(cfg);
  }

  lemma CrashRound(n: nat, cfg: Config)
    requires cfg.batch >= 1 && Reaches(CrashedState(n, cfg), cfg)
    ensures Reaches(CrashedState(n + 1, cfg), cfg)
  {
    var claimed := ClaimedThenCrashing(n, cfg);
    ClaimStep(n, cfg);
    ReachesNext(CrashedState(n, cfg), StartPass(0, {}, [0]), claimed, cfg);
    CrashStep(n, cfg);
    ReachesNext(claimed, Crash(0), claimed.(workers := map[]), cfg);
    WaitStep(n, cfg);
    ReachesNext(claimed.(workers := map[]), Tick((n + 1) * CrashPeriod(cfg)), CrashedState(n + 1, cfg), cfg);
  }

  lemma {:induction false} CrashedStateIsReachable(n: nat, cfg: Config)
    requires cfg.batch >= 1
    ensures Reaches(CrashedState(n, cfg), cfg)
  {
    if n == 0 {
      ReachesStart(cfg);
      ReachesNext(Start, Insert("e", "a", 0), CrashedState(0, cfg), cfg);
    } else {
      CrashedStateIsReachable(n - 1, cfg);
      CrashRound(n - 1, cfg);
    }
  }

  /** The limit counts recorded failures only. An event whose workers keep crashing is claimed any
      number of times past maxAttempts and is never marked failed. */
  lemma CrashesEscapeTheLimit(n: nat, cfg: Config)
    requires cfg.batch >= 1 && n >= 1
    ensures exists s :: Reaches(s, cfg) && |s.table| == 1 && s.table[0].attempts == n && s.table[0].status == Processing
  {
    CrashedStateIsReachable(n, cfg);
  }

  // ---- The lease must cover a whole batch ----

  function InsertedState(n: nat): State {
    State(0, seq(n, _ => FRESH), map[], [])
  }

  lemma {:induction false} InsertedStateIsReachable(n: nat, cfg: Config)
    ensures Reaches(InsertedState(n), cfg)
  {
    if n == 0 {
      ReachesStart(cfg);
      assert InsertedState(0) == Start;
    } else {
      InsertedStateIsReachable(n - 1, cfg);
      ReachesNext(InsertedState(n - 1), Insert("e", "a", 0), InsertedState(n), cfg);
    }
  }

  const HELD := FRESH.(status := Processing, attempts := 1, startedAt := Some(0))

  function AllClaims(n: nat): seq<Claim> {
    seq(n, i requires 0 <= i < n => Claim(i, 1))
  }

  /** A worker that claimed a full batch at 0 and takes the whole handling time for each event. */
  function SlowState(k: nat, cfg: Config): State
    requires k < cfg.batch
  {
    State(k * cfg.handling,
          seq(cfg.batch, i requires 0 <= i < cfg.batch =>
                if i < k then DoneRow(HELD, (i + 1) * cfg.handling) else HELD),
          map[0 := Worker(0, k, AllClaims(cfg.batch)[k..], k * cfg.handling)],
          [])
  }

  lemma FreshRowsAreSelected(n: nat, cfg: Config, picked: seq<EventId>)
    requires n == cfg.batch && |picked| == n && forall i :: 0 <= i < n ==> picked[i] == i
    ensures IsSelection(Reclaimed(InsertedState(n).table, 0, cfg.lease), 0, cfg.batch, {}, picked)
    ensures AfterClaim(InsertedState(n).table, 0, cfg.lease, picked) == seq(n, _ => HELD)
  {
    var table := InsertedState(n).table;
    assert Reclaimed(table, 0, cfg.lease) == table;
    assert forall i :: 0 <= i < n ==> picked[i] in picked;
    var after := AfterClaim(table, 0, cfg.lease, picked);
    forall i | 0 <= i < n ensures after[i] == HELD {
      assert i in picked by { assert picked[i] == i; }
      assert after[i] == ClaimedRow(ReclaimedRow(FRESH, 0, cfg.lease), 0);
    }
  }

  lemma SlowStart(cfg: Config)
    requires cfg.batch >= 1
    ensures Reaches(SlowState(0, cfg), cfg)
  {
    InsertedStateIsReachable(cfg.batch, cfg);
    var s := InsertedState(cfg.batch);
    var picked: seq<EventId> := seq(cfg.batch, i requires 0 <= i < cfg.batch => i);
    FreshRowsAreSelected(cfg.batch, cfg, picked);
    var start := StartPass(0, {}, picked);
    var s' := SlowState(0, cfg);
    assert s'.table == seq(cfg.batch, _ => HELD);
    assert ClaimsOf(s'.table, picked) == AllClaims(cfg.batch)[0..];
    assert Apply(s, start, cfg) == s';
    ReachesNext(s, start, s', cfg);
  }

  lemma SlowTick(k: nat, cfg: Config)
    requires k < cfg.batch && Reaches(SlowState(k, cfg), cfg)
    ensures Reaches(SlowState(k, cfg).(now := (k + 1) * cfg.handling), cfg)
  {
    assert (k + 1) * cfg.handling == k * cfg.handling + cfg.handling;
    ReachesNext(SlowState(k, cfg), Tick((k + 1) * cfg.handling),
                SlowState(k, cfg).(now := (k + 1) * cfg.handling), cfg);
  }

  lemma {:induction false} SlowStateIsReachable(k: nat, cfg: Config)
    requires k < cfg.batch
    ensures Reaches(SlowState(k, cfg), cfg)
  {
    if k == 0 {
      SlowStart(cfg);
    } else {
      SlowStateIsReachable(k - 1, cfg);
      SlowTick(k - 1, cfg);
      var s := SlowState(k - 1, cfg).(now := k * cfg.handling);
      var s' := Apply(s, Finish(0, Done), cfg);
      ReachesNext(s, Finish(0, Done), s', cfg);
      assert s'.table == SlowState(k, cfg).table;
      assert AllClaims(cfg.batch)[k - 1..][1..] == AllClaims(cfg.batch)[k..];
      assert s' == SlowState(k, cfg);
    }
  }

  /** The bound of LeaseExcludes is tight: as soon as a full batch can outlast the lease, some run
      puts an event in the hands of two live workers. */
  lemma LeaseMustCoverTheBatch(cfg: Config)
    requires cfg.batch >= 1 && cfg.batch * cfg.handling > cfg.lease
    ensures exists s :: Reaches(s, cfg) && !Exclusive(s)
  {
    var last := cfg.batch - 1;
    SlowStateIsReachable(last, cfg);
    SlowTick(last, cfg);
    var s := SlowState(last, cfg).(now := cfg.batch * cfg.handling);
    var picked: seq<EventId> := [last];
    var reclaimed := Reclaimed(s.table, s.now, cfg.lease);
    assert Stuck(s.table[last], s.now, cfg.lease);
    forall i | 0 <= i < cfg.batch && i != last ensures reclaimed[i].status == Processed {
      assert s.table[i] == DoneRow(HELD, (i + 1) * cfg.handling);
      assert reclaimed[i] == ReclaimedRow(s.table[i], s.now, cfg.lease);
    }
    assert IsSelection(reclaimed, s.now, cfg.batch, {}, picked);
    var s' := Apply(s, StartPass(1, {}, picked), cfg);
    ReachesNext(s, StartPass(1, {}, picked), s', cfg);
    assert s'.workers[0].queue[0].id == last && s'.workers[1].queue[0].id == last;
    assert Holds(s'.workers[0], last) && Holds(s'.workers[1], last);
  }
}
