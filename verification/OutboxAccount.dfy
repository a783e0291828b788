/** Where every attempt of an event goes: each claim is held by one live worker, was put back, was
    settled, or was lost to a crash or an unrecorded error; and what that leaves of the limit. */
module OutboxAccount {
  import opened Basics
  import opened Outbox
  import opened OutboxLease
  import opened OutboxLimits

  // ---- The fates of a claim ----

  predicate InHand(s: State, c: Claim) {
    exists w :: w in s.workers && c in s.workers[w].queue
  }

  function ClaimSet(cs: seq<Claim>): set<Claim> {
    set c | c in cs
  }

  /** The claims that no row update will ever answer: those of a crashed worker, and one whose
      error could not be recorded. */
  function LostBy(s: State, step: Step): set<Claim> {
    if step.Crash? && step.worker in s.workers then ClaimSet(s.workers[step.worker].queue)
    else if step.Finish? && step.outcome.ErrorNotRecorded?
            && step.worker in s.workers && s.workers[step.worker].queue != []
    then {s.workers[step.worker].queue[0]}
    else {}
  }

  predicate Settles(c: Claim, outcome: Outcome, cfg: Config) {
    outcome.Done? || (outcome.Error? && c.attempt >= cfg.maxAttempts)
  }

  /** The claim whose row becomes PROCESSED or FAILED. */
  function SettledBy(s: State, step: Step, cfg: Config): set<Claim> {
    if step.Finish? && step.worker in s.workers && s.workers[step.worker].queue != []
       && Settles(s.workers[step.worker].queue[0], step.outcome, cfg)
    then {s.workers[step.worker].queue[0]}
    else {}
  }

  function Lost(steps: seq<Step>, states: seq<State>): set<Claim>
    requires |states| == |steps| + 1
  {
    if steps == [] then {}
    else
      var n := |steps| - 1;
      Lost(steps[..n], states[..n + 1]) + LostBy(states[n], steps[n])
  }

  function Settled(steps: seq<Step>, states: seq<State>, cfg: Config): set<Claim>
    requires |states| == |steps| + 1
  {
    if steps == [] then {}
    else
      var n := |steps| - 1;
      Settled(steps[..n], states[..n + 1], cfg) + SettledBy(states[n], steps[n], cfg)
  }

  /** Every claim ever made has exactly one fate. */
  ghost predicate Accounted(s: State, lost: set<Claim>, settled: set<Claim>) {
    && (forall c :: ClaimFits(c, s.table) <==> InHand(s, c) || c in s.retried || c in lost || c in settled)
    && (forall c :: InHand(s, c) ==> c !in s.retried && c !in lost && c !in settled)
    && (forall c :: c in s.retried ==> c !in lost && c !in settled)
    && lost !! settled
  }

  // ---- What a step does to the claims ----

  lemma StartHands(s: State, step: Step, s': State, cfg: Config, c: Claim)
    requires CanStep(s, step, s', cfg) && step.StartPass?
    ensures InHand(s', c) <==> InHand(s, c) || c in s'.workers[step.worker].queue
  {
    if InHand(s, c) {
      var w :| w in s.workers && c in s.workers[w].queue;
      assert s'.workers[w] == s.workers[w];
    }
  }

  lemma StartedClaims(s: State, step: Step, s': State, cfg: Config, c: Claim)
    requires CanStep(s, step, s', cfg) && step.StartPass?
    ensures c in s'.workers[step.worker].queue <==>
            c.id in step.picked && c.id < |s.table| && c.attempt == s.table[c.id].attempts + 1
  {
    var q := s'.workers[step.worker].queue;
    if k :| 0 <= k < |q| && q[k] == c {
      assert step.picked[k] in step.picked;
    }
    if c.id in step.picked {
      var k :| 0 <= k < |step.picked| && step.picked[k] == c.id;
      assert q[k] == Claim(c.id, s.table[c.id].attempts + 1);
    }
  }

  lemma StartFits(s: State, step: Step, s': State, cfg: Config, c: Claim)
    requires RetryInv(s, cfg) && CanStep(s, step, s', cfg) && step.StartPass?
    ensures ClaimFits(c, s'.table) <==> ClaimFits(c, s.table) || c in s'.workers[step.worker].queue
    ensures c in s'.workers[step.worker].queue ==> !ClaimFits(c, s.table)
  {
    StartedClaims(s, step, s', cfg, c);
  }

  lemma FinishHands(s: State, step: Step, s': State, cfg: Config, c: Claim)
    requires RetryInv(s, cfg) && CanStep(s, step, s', cfg) && step.Finish?
    ensures InHand(s', c) <==> InHand(s, c) && c != s.workers[step.worker].queue[0]
  {
    var w, head := s.workers[step.worker], s.workers[step.worker].queue[0];
    assert QueueFits(s, step.worker) && head in w.queue;
    if InHand(s, c) && c != head {
      var v :| v in s.workers && c in s.workers[v].queue;
      if v == step.worker {
        assert w.queue == [head] + w.queue[1..];
        assert c in w.queue[1..];
      }
      assert v in s'.workers && c in s'.workers[v].queue;
    }
    if InHand(s', c) {
      var v :| v in s'.workers && c in s'.workers[v].queue;
      if v == step.worker {
        var k :| 0 <= k < |w.queue[1..]| && w.queue[1..][k] == c;
        assert w.queue[k + 1] == c && w.queue[0] != w.queue[k + 1];
      }
      assert c in s.workers[v].queue;
    }
  }

  lemma CrashHands(s: State, step: Step, s': State, cfg: Config, c: Claim)
    requires RetryInv(s, cfg) && CanStep(s, step, s', cfg) && step.Crash?
    ensures InHand(s', c) <==> InHand(s, c) && c !in s.workers[step.worker].queue
  {
    if InHand(s, c) && c !in s.workers[step.worker].queue {
      var v :| v in s.workers && c in s.workers[v].queue;
      assert v in s'.workers && s'.workers[v] == s.workers[v];
    }
    if InHand(s', c) {
      var v :| v in s'.workers && c in s'.workers[v].queue;
      assert c in s.workers[v].queue;
    }
  }

  lemma OtherHands(s: State, step: Step, s': State, cfg: Config, c: Claim)
    requires CanStep(s, step, s', cfg) && (step.Insert? || step.Tick?)
    ensures InHand(s', c) <==> InHand(s, c)
    ensures ClaimFits(c, s'.table) <==> ClaimFits(c, s.table)
  {
  }

  lemma StartKeepsAccount(s: State, step: Step, s': State, lost: set<Claim>, settled: set<Claim>, cfg: Config)
    requires RetryInv(s, cfg) && CanStep(s, step, s', cfg) && step.StartPass? && Accounted(s, lost, settled)
    ensures Accounted(s', lost, settled)
  {
    forall c
      ensures InHand(s', c) <==> InHand(s, c) || c in s'.workers[step.worker].queue
      ensures ClaimFits(c, s'.table) <==> ClaimFits(c, s.table) || c in s'.workers[step.worker].queue
      ensures c in s'.workers[step.worker].queue ==> !ClaimFits(c, s.table)
    {
      StartHands(s, step, s', cfg, c);
      StartFits(s, step, s', cfg, c);
    }
  }

  lemma FinishKeepsAccount(s: State, step: Step, s': State, lost: set<Claim>, settled: set<Claim>, cfg: Config)
    requires RetryInv(s, cfg) && CanStep(s, step, s', cfg) && step.Finish? && Accounted(s, lost, settled)
    ensures Accounted(s', lost + LostBy(s, step), settled + SettledBy(s, step, cfg))
  {
    var head := s.workers[step.worker].queue[0];
    assert InHand(s, head) by { assert head in s.workers[step.worker].queue; }
    forall c
      ensures InHand(s', c) <==> InHand(s, c) && c != head
      ensures ClaimFits(c, s'.table) <==> ClaimFits(c, s.table)
    {
      FinishHands(s, step, s', cfg, c);
    }
  }

  lemma CrashKeepsAccount(s: State, step: Step, s': State, lost: set<Claim>, settled: set<Claim>, cfg: Config)
    requires RetryInv(s, cfg) && CanStep(s, step, s', cfg) && step.Crash? && Accounted(s, lost, settled)
    ensures Accounted(s', lost + LostBy(s, step), settled)
  {
    forall c
      ensures InHand(s', c) <==> InHand(s, c) && c !in LostBy(s, step)
      ensures c in LostBy(s, step) ==> InHand(s, c)
    {
      CrashHands(s, step, s', cfg, c);
    }
  }

  lemma StepKeepsAccount(s: State, step: Step, s': State, lost: set<Claim>, settled: set<Claim>, cfg: Config)
    requires RetryInv(s, cfg) && CanStep(s, step, s', cfg) && Accounted(s, lost, settled)
    ensures Accounted(s', lost + LostBy(s, step), settled + SettledBy(s, step, cfg))
  {
    if step.StartPass? {
      assert lost + LostBy(s, step) == lost && settled + SettledBy(s, step, cfg) == settled;
      StartKeepsAccount(s, step, s', lost, settled, cfg);
    } else if step.Finish? {
      FinishKeepsAccount(s, step, s', lost, settled, cfg);
    } else if step.Crash? {
      assert settled + SettledBy(s, step, cfg) == settled;
      CrashKeepsAccount(s, step, s', lost, settled, cfg);
    } else {
      assert lost + LostBy(s, step) == lost && settled + SettledBy(s, step, cfg) == settled;
      forall c
        ensures InHand(s', c) <==> InHand(s, c)
        ensures ClaimFits(c, s'.table) <==> ClaimFits(c, s.table)
      {
        OtherHands(s, step, s', cfg, c);
      }
    }
  }

  lemma TracePrefix(steps: seq<Step>, states: seq<State>, cfg: Config)
    requires steps != [] && IsTrace(steps, states, cfg)
    ensures IsTrace(steps[..|steps| - 1], states[..|steps|], cfg)
  {
    var n := |steps| - 1;
    forall i | 0 <= i < n ensures CanStep(states[..n + 1][i], steps[..n][i], states[..n + 1][i + 1], cfg) {
      assert CanStep(states[i], steps[i], states[i + 1], cfg);
    }
  }

  lemma {:induction false} TraceIsAccounted(steps: seq<Step>, states: seq<State>, cfg: Config)
    requires IsTrace(steps, states, cfg)
    ensures Accounted(states[|steps|], Lost(steps, states), Settled(steps, states, cfg))
  {
    if steps != [] {
      var n := |steps| - 1;
      TracePrefix(steps, states, cfg);
      TraceIsAccounted(steps[..n], states[..n + 1], cfg);
      TraceKeepsRetryInv(steps, states, n, cfg);
      assert CanStep(states[n], steps[n], states[n + 1], cfg);
      StepKeepsAccount(states[n], steps[n], states[n + 1],
                       Lost(steps[..n], states[..n + 1]), Settled(steps[..n], states[..n + 1], cfg), cfg);
    }
  }

  // ---- Counting ----

  /** The attempt numbers of one event's claims in a set. */
  function NumbersIn(cs: set<Claim>, id: EventId): set<int> {
    set c | c in cs && c.id == id :: c.attempt
  }

  function NumbersInHand(s: State, id: EventId): set<int>
    requires id < |s.table|
  {
    set a | 1 <= a <= s.table[id].attempts && InHand(s, Claim(id, a))
  }

  lemma NumberIsClaim(cs: set<Claim>, id: EventId, a: int)
    ensures a in NumbersIn(cs, id) <==> Claim(id, a) in cs
  {
    if a in NumbersIn(cs, id) {
      var c :| c in cs && c.id == id && c.attempt == a;
      assert c == Claim(id, a);
    }
    if Claim(id, a) in cs { assert Claim(id, a).attempt in NumbersIn(cs, id); }
  }

  lemma PutBackIsClaim(retried: seq<Claim>, id: EventId, a: int)
    ensures a in AttemptsOf(retried, id) <==> Claim(id, a) in retried
  {
    if a in AttemptsOf(retried, id) {
      var k :| 0 <= k < |retried| && retried[k].id == id && retried[k].attempt == a;
      assert retried[k] == Claim(id, a);
    }
    if Claim(id, a) in retried {
      var k :| 0 <= k < |retried| && retried[k] == Claim(id, a);
      assert retried[k].attempt in AttemptsOf(retried, id);
    }
  }

  lemma FourParts(all: set<int>, a: set<int>, b: set<int>, c: set<int>, d: set<int>)
    requires all == a + b + c + d && a !! b && (a + b) !! c && (a + b + c) !! d
    ensures |all| == |a| + |b| + |c| + |d|
  {
    assert |a + b| == |a| + |b|;
    assert |a + b + c| == |a + b| + |c|;
    assert |a + b + c + d| == |a + b + c| + |d|;
  }

  /** Conservation, in every run, crashes and overlapping leases included: the attempts of an
      event are its claims in hand, put back, lost and settled, each counted once. */
  lemma AttemptsAreConserved(steps: seq<Step>, states: seq<State>, id: EventId, cfg: Config)
    requires IsTrace(steps, states, cfg) && id < |states[|steps|].table|
    ensures var s := states[|steps|];
            s.table[id].attempts == |NumbersInHand(s, id)| + TimesPutBack(s.retried, id)
                                    + |NumbersIn(Lost(steps, states), id)|
                                    + |NumbersIn(Settled(steps, states, cfg), id)|
  {
    var s, lost, settled := states[|steps|], Lost(steps, states), Settled(steps, states, cfg);
    TraceKeepsRetryInv(steps, states, |steps|, cfg);
    TraceIsAccounted(steps, states, cfg);
    CountIsAttempts(s.retried, id);
    CountParts(s, lost, settled, id);
  }

  lemma NumberHasOneFate(s: State, lost: set<Claim>, settled: set<Claim>, id: EventId, a: int)
    requires Accounted(s, lost, settled) && id < |s.table|
    ensures var h, p := a in NumbersInHand(s, id), a in AttemptsOf(s.retried, id);
            var l, d := a in NumbersIn(lost, id), a in NumbersIn(settled, id);
            && (1 <= a <= s.table[id].attempts <==> h || p || l || d)
            && (h ==> !p && !l && !d) && (p ==> !l && !d) && (l ==> !d)
  {
    PutBackIsClaim(s.retried, id, a);
    NumberIsClaim(lost, id, a);
    NumberIsClaim(settled, id, a);
    assert ClaimFits(Claim(id, a), s.table) <==> 1 <= a <= s.table[id].attempts;
  }

  lemma CountParts(s: State, lost: set<Claim>, settled: set<Claim>, id: EventId)
    requires Accounted(s, lost, settled) && id < |s.table| && s.table[id].attempts >= 0
    ensures s.table[id].attempts == |NumbersInHand(s, id)| + |AttemptsOf(s.retried, id)|
                                    + |NumbersIn(lost, id)| + |NumbersIn(settled, id)|
  {
    var all, h, p, l, d := UpTo(s.table[id].attempts), NumbersInHand(s, id), AttemptsOf(s.retried, id),
                           NumbersIn(lost, id), NumbersIn(settled, id);
    UpToFacts(s.table[id].attempts);
    forall a
      ensures a in all <==> a in h || a in p || a in l || a in d
      ensures (a in h ==> a !in p && a !in l && a !in d) && (a in p ==> a !in l && a !in d) && (a in l ==> a !in d)
    {
      NumberHasOneFate(s, lost, settled, id, a);
    }
    FourParts(all, h, p, l, d);
  }

  // ---- Under a sufficient lease ----

  ghost predicate SettledOnce(s: State, lost: set<Claim>, settled: set<Claim>) {
    && (forall c :: c in settled ==> c.id < |s.table| && Terminal(s.table[c.id]))
    && (forall c, d :: c in settled && d in settled && c.id == d.id ==> c == d)
    && (forall id :: 0 <= id < |s.table| && Terminal(s.table[id]) ==> exists c :: c in settled && c.id == id)
    && (forall id :: 0 <= id < |s.table| && s.table[id].status == Processing ==> Current(s, id, lost))
  }

  /** The claim that put the row into processing is in hand, or lost. */
  predicate Current(s: State, id: EventId, lost: set<Claim>)
    requires id < |s.table|
  {
    InHand(s, Claim(id, s.table[id].attempts)) || Claim(id, s.table[id].attempts) in lost
  }

  lemma InHandIsProcessing(s: State, c: Claim, cfg: Config)
    requires LeaseInv(s, cfg) && InHand(s, c)
    ensures c.id < |s.table| && s.table[c.id].status == Processing && s.table[c.id].attempts == c.attempt
  {
    var w :| w in s.workers && c in s.workers[w].queue;
    var k :| 0 <= k < |s.workers[w].queue| && s.workers[w].queue[k] == c;
    assert QueueOk(s.workers[w], s.table);
  }

  lemma StartSettlesNothing(s: State, step: Step, s': State, lost: set<Claim>, settled: set<Claim>, cfg: Config)
    requires LeaseInv(s, cfg) && CanStep(s, step, s', cfg) && step.StartPass? && SettledOnce(s, lost, settled)
    ensures SettledOnce(s', lost, settled)
  {
    forall id: EventId | id < |s.table|
      ensures Terminal(s'.table[id]) <==> Terminal(s.table[id])
      ensures s'.table[id].status == Processing ==> Current(s', id, lost)
    {
      var reclaimed := Reclaimed(s.table, s.now, cfg.lease);
      if id in step.picked {
        var k :| 0 <= k < |step.picked| && step.picked[k] == id;
        assert Candidate(reclaimed, s.now, step.locked, step.picked[k]);
        assert s'.workers[step.worker].queue[k] == Claim(id, s'.table[id].attempts);
        assert InHand(s', Claim(id, s'.table[id].attempts));
      } else if s'.table[id].status == Processing {
        assert s'.table[id] == s.table[id] && Current(s, id, lost);
        StartHands(s, step, s', cfg, Claim(id, s.table[id].attempts));
      }
    }
  }

  lemma FinishSettles(s: State, step: Step, s': State, lost: set<Claim>, settled: set<Claim>, cfg: Config)
    requires LeaseInv(s, cfg) && RetryInv(s, cfg) && SettledOnce(s, lost, settled)
    requires CanStep(s, step, s', cfg) && step.Finish?
    ensures SettledOnce(s', lost + LostBy(s, step), settled + SettledBy(s, step, cfg))
  {
    var head := s.workers[step.worker].queue[0];
    assert InHand(s, head) by { assert head in s.workers[step.worker].queue; }
    InHandIsProcessing(s, head, cfg);
    forall id: EventId | id < |s.table| && s'.table[id].status == Processing
      ensures Current(s', id, lost + LostBy(s, step))
    {
      assert s.table[id].status == Processing && Current(s, id, lost);
      FinishHands(s, step, s', cfg, Claim(id, s.table[id].attempts));
      assert id == head.id ==> Claim(id, s.table[id].attempts) == head;
    }
    forall id | 0 <= id < |s'.table| && Terminal(s'.table[id])
      ensures exists c :: c in settled + SettledBy(s, step, cfg) && c.id == id
    {
      if id == head.id {
        assert head in SettledBy(s, step, cfg);
      } else {
        var c :| c in settled && c.id == id;
        assert c in settled + SettledBy(s, step, cfg);
      }
    }
  }

  lemma CrashSettlesNothing(s: State, step: Step, s': State, lost: set<Claim>, settled: set<Claim>, cfg: Config)
    requires RetryInv(s, cfg) && CanStep(s, step, s', cfg) && step.Crash? && SettledOnce(s, lost, settled)
    ensures SettledOnce(s', lost + LostBy(s, step), settled)
  {
    forall id: EventId | id < |s.table| && s.table[id].status == Processing
      ensures Current(s', id, lost + LostBy(s, step))
    {
      assert Current(s, id, lost);
      CrashHands(s, step, s', cfg, Claim(id, s.table[id].attempts));
    }
  }

  lemma OtherSettlesNothing(s: State, step: Step, s': State, lost: set<Claim>, settled: set<Claim>, cfg: Config)
    requires CanStep(s, step, s', cfg) && (step.Insert? || step.Tick?) && SettledOnce(s, lost, settled)
    ensures SettledOnce(s', lost, settled)
  {
    forall id: EventId | id < |s.table| && s.table[id].status == Processing ensures Current(s', id, lost) {
      assert Current(s, id, lost);
      OtherHands(s, step, s', cfg, Claim(id, s.table[id].attempts));
    }
  }

  lemma {:induction false} TraceSettlesOnce(steps: seq<Step>, states: seq<State>, cfg: Config)
    requires IsTrace(steps, states, cfg) && cfg.batch * cfg.handling <= cfg.lease
    ensures SettledOnce(states[|steps|], Lost(steps, states), Settled(steps, states, cfg))
  {
    if steps != [] {
      var n := |steps| - 1;
      var s, step, s' := states[n], steps[n], states[n + 1];
      var lost, settled := Lost(steps[..n], states[..n + 1]), Settled(steps[..n], states[..n + 1], cfg);
      TracePrefix(steps, states, cfg);
      TraceSettlesOnce(steps[..n], states[..n + 1], cfg);
      TraceKeepsRetryInv(steps, states, n, cfg);
      TraceKeepsInv(steps, states, n, cfg);
      assert CanStep(s, step, s', cfg);
      if step.Finish? {
        FinishSettles(s, step, s', lost, settled, cfg);
      } else {
        assert settled + SettledBy(s, step, cfg) == settled;
        if step.Crash? {
          CrashSettlesNothing(s, step, s', lost, settled, cfg);
        } else {
          assert lost + LostBy(s, step) == lost;
          if step.StartPass? {
            StartSettlesNothing(s, step, s', lost, settled, cfg);
          } else {
            OtherSettlesNothing(s, step, s', lost, settled, cfg);
          }
        }
      }
    }
  }

  predicate IsHeld(s: State, id: EventId) {
    exists w :: w in s.workers && Holds(s.workers[w], id)
  }

  /** The exact account, when a batch fits in the lease: the attempts of an event are those put
      back, those lost, and one more if it is settled or in a worker's hands. */
  lemma AttemptAccount(steps: seq<Step>, states: seq<State>, id: EventId, cfg: Config)
    requires IsTrace(steps, states, cfg) && id < |states[|steps|].table| && cfg.batch * cfg.handling <= cfg.lease
    ensures var s := states[|steps|];
            s.table[id].attempts == TimesPutBack(s.retried, id) + |NumbersIn(Lost(steps, states), id)|
                                    + (if Terminal(s.table[id]) || IsHeld(s, id) then 1 else 0)
  {
    var s, settled := states[|steps|], Settled(steps, states, cfg);
    AttemptsAreConserved(steps, states, id, cfg);
    TraceKeepsInv(steps, states, |steps|, cfg);
    TraceSettlesOnce(steps, states, cfg);
    TraceIsAccounted(steps, states, cfg);
    InHandCount(s, id, cfg);
    SettledCount(s, id, Lost(steps, states), settled);
    if IsHeld(s, id) {
      var w :| w in s.workers && Holds(s.workers[w], id);
      assert QueueOk(s.workers[w], s.table);
    }
  }

  lemma OneElement(xs: set<int>, x: int)
    requires x in xs
    requires forall y :: y in xs ==> y == x
    ensures |xs| == 1
  {
    forall y ensures y in xs <==> y in {x} {}
    assert xs == {x};
  }

  lemma InHandCount(s: State, id: EventId, cfg: Config)
    requires LeaseInv(s, cfg) && id < |s.table|
    requires forall c :: InHand(s, c) ==> ClaimFits(c, s.table)
    ensures |NumbersInHand(s, id)| == if IsHeld(s, id) then 1 else 0
  {
    var held := NumbersInHand(s, id);
    forall a | a in held ensures a == s.table[id].attempts && IsHeld(s, id) {
      InHandIsProcessing(s, Claim(id, a), cfg);
      var w :| w in s.workers && Claim(id, a) in s.workers[w].queue;
      var k :| 0 <= k < |s.workers[w].queue| && s.workers[w].queue[k] == Claim(id, a);
      assert Holds(s.workers[w], id);
    }
    if IsHeld(s, id) {
      var w :| w in s.workers && Holds(s.workers[w], id);
      var k :| 0 <= k < |s.workers[w].queue| && s.workers[w].queue[k].id == id;
      var c := s.workers[w].queue[k];
      assert InHand(s, c) by { assert c in s.workers[w].queue; }
      InHandIsProcessing(s, c, cfg);
      assert c == Claim(id, c.attempt) && c.attempt in held;
      OneElement(held, c.attempt);
    } else {
      assert held == {};
    }
  }

  lemma SettledCount(s: State, id: EventId, lost: set<Claim>, settled: set<Claim>)
    requires SettledOnce(s, lost, settled) && id < |s.table|
    ensures |NumbersIn(settled, id)| == if Terminal(s.table[id]) then 1 else 0
  {
    var numbers := NumbersIn(settled, id);
    if Terminal(s.table[id]) {
      var c :| c in settled && c.id == id;
      forall a | a in numbers ensures a == c.attempt { NumberIsClaim(settled, id, a); }
      assert c == Claim(id, c.attempt);
      NumberIsClaim(settled, id, c.attempt);
      OneElement(numbers, c.attempt);
    } else {
      forall a ensures a !in numbers { NumberIsClaim(settled, id, a); }
      assert numbers == {};
    }
  }

  /** What the limit is worth: it can be exceeded only by claims that were lost, and a row that
      stays in processing with no worker is one whose claim was lost. */
  lemma LimitHoldsButForLosses(steps: seq<Step>, states: seq<State>, id: EventId, cfg: Config)
    requires IsTrace(steps, states, cfg) && id < |states[|steps|].table| && cfg.batch * cfg.handling <= cfg.lease
    ensures var s, lost := states[|steps|], Lost(steps, states);
            && s.table[id].attempts <= Max(1, cfg.maxAttempts) + |NumbersIn(lost, id)|
            && (s.table[id].status == Processing ==> IsHeld(s, id) || Claim(id, s.table[id].attempts) in lost)
  {
    var s := states[|steps|];
    AttemptAccount(steps, states, id, cfg);
    PutBackBound(steps, states, |steps|, id, cfg);
    TraceSettlesOnce(steps, states, cfg);
    if s.table[id].status == Processing && InHand(s, Claim(id, s.table[id].attempts)) {
      var w :| w in s.workers && Claim(id, s.table[id].attempts) in s.workers[w].queue;
      var k :| 0 <= k < |s.workers[w].queue| && s.workers[w].queue[k] == Claim(id, s.table[id].attempts);
      assert Holds(s.workers[w], id);
    }
  }

  /** No worker dies in the middle of a pass, and every error status is recorded. */
  ghost predicate LosesNothing(steps: seq<Step>) {
    forall i :: 0 <= i < |steps| ==> !steps[i].Crash? && !(steps[i].Finish? && steps[i].outcome.ErrorNotRecorded?)
  }

  lemma {:induction false} NothingLost(steps: seq<Step>, states: seq<State>)
    requires |states| == |steps| + 1 && LosesNothing(steps)
    ensures Lost(steps, states) == {}
  {
    if steps != [] { NothingLost(steps[..|steps| - 1], states[..|steps|]); }
  }

  /** Then max_attempts does bound the attempts, whatever the handlers do and however many workers
      poll, and whatever is in processing is in some worker's hands. */
  lemma LimitHoldsWithoutLosses(steps: seq<Step>, states: seq<State>, id: EventId, cfg: Config)
    requires IsTrace(steps, states, cfg) && id < |states[|steps|].table| && cfg.batch * cfg.handling <= cfg.lease
    requires LosesNothing(steps)
    ensures states[|steps|].table[id].attempts <= Max(1, cfg.maxAttempts)
    ensures states[|steps|].table[id].status == Processing ==> IsHeld(states[|steps|], id)
  {
    NothingLost(steps, states);
    LimitHoldsButForLosses(steps, states, id, cfg);
  }
}
