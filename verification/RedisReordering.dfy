/** The Redis limiter when requests overtake each other on their way to the server, so that pipelines
    run in any order of their stamps: the exact verdict, and what is left of the bound. */
module RedisReordering {
  import opened Basics
  import opened SlidingWindow
  import opened RedisLimiter

  /** Like `Ordered`, but for the order: distinct stamps per key, a server clock that does not run
      backwards, and delays that grow by no more than the expiry margin. */
  ghost predicate InAnyOrder(execs: seq<Exec>) {
    && (forall i :: 0 <= i < |execs| ==> execs[i].at >= 0)
    && (forall i, j :: 0 <= i < j < |execs| ==> Meets(execs[i], execs[j]))
  }

  predicate Meets(d: Exec, e: Exec) {
    d.key == e.key ==> d.at != e.at && Timely(d, e)
  }

  /** No pipeline is overtaken by stamps more than `slack` later than its own. */
  ghost predicate Within(execs: seq<Exec>, slack: nat) {
    forall i, j :: 0 <= i < j < |execs| && execs[i].key == execs[j].key ==> execs[i].at <= execs[j].at + slack
  }

  lemma OrderedIsWithinNothing(execs: seq<Exec>)
    ensures Ordered(execs) <==> InAnyOrder(execs) && Within(execs, 0)
  {
    if Ordered(execs) {
      forall i, j | 0 <= i < j < |execs| ensures Meets(execs[i], execs[j]) { assert Precedes(execs[i], execs[j]); }
    }
    if InAnyOrder(execs) && Within(execs, 0) {
      forall i, j | 0 <= i < j < |execs| ensures Precedes(execs[i], execs[j]) { assert Meets(execs[i], execs[j]); }
    }
  }

  ghost predicate CanRun(s: State, step: Step) {
    match step
    case Pipeline(key, at, server) => InAnyOrder(s.execs + [Exec(key, at, server, true)])
    case Undo(i) => i < |s.execs| && !s.execs[i].allowed && i !in s.undone
  }

  ghost predicate IsRunInAnyOrder(steps: seq<Step>, states: seq<State>, limit: int, window: int) {
    && |states| == |steps| + 1
    && states[0] == Start
    && forall i :: 0 <= i < |steps| ==>
         CanRun(states[i], steps[i]) && states[i + 1] == Apply(states[i], steps[i], limit, window)
  }

  lemma VerdictIsFree(execs: seq<Exec>, e: Exec, allowed: bool)
    requires InAnyOrder(execs + [e])
    ensures InAnyOrder(execs + [e.(allowed := allowed)])
  {
    var all, alt := execs + [e], execs + [e.(allowed := allowed)];
    assert forall i :: 0 <= i < |all| ==>
      alt[i].key == all[i].key && alt[i].at == all[i].at && alt[i].server == all[i].server;
    forall i, j | 0 <= i < j < |alt| ensures Meets(alt[i], alt[j]) { assert Meets(all[i], all[j]); }
  }

  // ---- What the sorted set holds, exactly ----

  /** The entry stands, and no pipeline that ran after it was stamped a window or more later. */
  ghost predicate Outlives(execs: seq<Exec>, undone: set<nat>, key: string, i: int, window: int) {
    && Stands(execs, undone, key, i)
    && forall j :: i < j < |execs| && execs[j].key == key ==> execs[i].at > execs[j].at - window
  }

  ghost function Survivors(execs: seq<Exec>, undone: set<nat>, key: string, window: int): set<int> {
    set i | 0 <= i < |execs| && Outlives(execs, undone, key, i, window) :: execs[i].at
  }

  ghost function Later(stamps: set<int>, lo: int): set<int> {
    set t | t in stamps && t > lo
  }

  ghost predicate Holds(s: State, key: string, window: int) {
    var last := LastOn(s.execs, key);
    if last < 0 then key !in s.sets
    else
      && key in s.sets
      && s.sets[key].deadline == s.execs[last].server + window + TTL_MARGIN
      && s.sets[key].members == Survivors(s.execs, s.undone, key, window)
  }

  ghost predicate AnyOrderInv(s: State, window: int) {
    && InAnyOrder(s.execs)
    && (forall i :: i in s.undone ==> i < |s.execs| && !s.execs[i].allowed)
    && forall key :: Holds(s, key, window)
  }

  lemma SurvivorIs(execs: seq<Exec>, undone: set<nat>, key: string, window: int, t: int)
    ensures t in Survivors(execs, undone, key, window) <==>
            exists i :: Outlives(execs, undone, key, i, window) && execs[i].at == t
  {
    if i :| Outlives(execs, undone, key, i, window) && execs[i].at == t {
      assert Stands(execs, undone, key, i);
    }
  }

  lemma NoSurvivorOfStrangers(execs: seq<Exec>, undone: set<nat>, key: string, window: int)
    requires LastOn(execs, key) < 0
    ensures Survivors(execs, undone, key, window) == {}
  {
  }

  /** One more pipeline on another key, or on this one. */
  lemma OutlivesSnoc(execs: seq<Exec>, e: Exec, undone: set<nat>, key: string, i: int, window: int)
    requires 0 <= i < |execs|
    ensures Outlives(execs + [e], undone, key, i, window) <==>
            Outlives(execs, undone, key, i, window) && (e.key == key ==> execs[i].at > e.at - window)
  {
    var all := execs + [e];
    assert forall j :: 0 <= j < |execs| ==> all[j] == execs[j];
    assert all[|execs|] == e;
  }

  lemma NewestOutlives(execs: seq<Exec>, e: Exec, undone: set<nat>, window: int)
    requires |execs| !in undone
    ensures Outlives(execs + [e], undone, e.key, |execs|, window)
  {
  }

  lemma SurvivorsSnoc(execs: seq<Exec>, e: Exec, undone: set<nat>, key: string, window: int)
    requires |execs| !in undone
    ensures Survivors(execs + [e], undone, key, window) ==
            if e.key != key then Survivors(execs, undone, key, window)
            else Later(Survivors(execs, undone, key, window), e.at - window) + {e.at}
  {
    var all := execs + [e];
    var before := Survivors(execs, undone, key, window);
    forall t
      ensures t in Survivors(all, undone, key, window) <==>
              (t in before && (e.key == key ==> t > e.at - window)) || (e.key == key && t == e.at)
    {
      SurvivorIs(all, undone, key, window, t);
      SurvivorIs(execs, undone, key, window, t);
      if i :| Outlives(all, undone, key, i, window) && all[i].at == t {
        assert Stands(all, undone, key, i);
        if i < |execs| { OutlivesSnoc(execs, e, undone, key, i, window); }
      }
      if i :| Outlives(execs, undone, key, i, window) && execs[i].at == t {
        assert Stands(execs, undone, key, i);
        OutlivesSnoc(execs, e, undone, key, i, window);
        assert all[i].at == t;
      }
      if e.key == key {
        NewestOutlives(execs, e, undone, window);
        assert all[|execs|].at == e.at;
      }
    }
  }

  /** A key that has expired held only what the caller's own stamp prunes. */
  lemma ExpiredIsPruned(s: State, e: Exec, i: int, window: int)
    requires AnyOrderInv(s, window) && InAnyOrder(s.execs + [e])
    requires 0 <= i < |s.execs| && s.execs[i].key == e.key
    requires e.key in s.sets && e.server >= s.sets[e.key].deadline
    ensures s.execs[i].at <= e.at - window
  {
    var all, last := s.execs + [e], LastOn(s.execs, e.key);
    assert Holds(s, e.key, window);
    assert all[i] == s.execs[i] && Meets(all[i], all[|s.execs|]);
    assert i < last ==> Meets(s.execs[i], s.execs[last]);
  }

  /** What the caller finds, whatever ran before it in whatever order. */
  lemma UnprunedAreSurvivors(s: State, e: Exec, window: int)
    requires AnyOrderInv(s, window) && InAnyOrder(s.execs + [e])
    ensures Unpruned(s.sets, e.key, e.at, e.server, window) ==
            Later(Survivors(s.execs, s.undone, e.key, window), e.at - window)
    ensures e.at !in Survivors(s.execs, s.undone, e.key, window)
  {
    var all, survivors := s.execs + [e], Survivors(s.execs, s.undone, e.key, window);
    assert Holds(s, e.key, window);
    if LastOn(s.execs, e.key) < 0 { NoSurvivorOfStrangers(s.execs, s.undone, e.key, window); }
    forall t | t in survivors
      ensures t >= 0 && t != e.at
      ensures e.key in s.sets && (e.server >= s.sets[e.key].deadline ==> t <= e.at - window)
    {
      SurvivorIs(s.execs, s.undone, e.key, window, t);
      var i :| Outlives(s.execs, s.undone, e.key, i, window) && s.execs[i].at == t;
      assert Stands(s.execs, s.undone, e.key, i);
      assert all[i] == s.execs[i] && Meets(all[i], all[|s.execs|]);
      if e.server >= s.sets[e.key].deadline { ExpiredIsPruned(s, e, i, window); }
    }
  }

  lemma PipelineKeepsAnyOrderInv(s: State, e: Exec, window: int)
    requires AnyOrderInv(s, window) && InAnyOrder(s.execs + [e])
    ensures AnyOrderInv(State(AfterPipeline(s.sets, e.key, e.at, e.server, window), s.execs + [e], s.undone), window)
  {
    var s' := State(AfterPipeline(s.sets, e.key, e.at, e.server, window), s.execs + [e], s.undone);
    forall key ensures Holds(s', key, window) {
      assert Holds(s, key, window);
      assert s'.execs[..|s.execs|] == s.execs;
      SurvivorsSnoc(s.execs, e, s.undone, key, window);
      if key == e.key { UnprunedAreSurvivors(s, e, window); }
    }
  }

  lemma UndoTakesOne(s: State, i: nat, key: string, window: int)
    requires InAnyOrder(s.execs) && i < |s.execs| && !s.execs[i].allowed
    ensures Survivors(s.execs, s.undone + {i}, key, window) ==
            Survivors(s.execs, s.undone, key, window) - (if s.execs[i].key == key then {s.execs[i].at} else {})
  {
    var undone := s.undone + {i};
    forall t
      ensures t in Survivors(s.execs, undone, key, window) <==>
              t in Survivors(s.execs, s.undone, key, window) && !(s.execs[i].key == key && t == s.execs[i].at)
    {
      SurvivorIs(s.execs, undone, key, window, t);
      SurvivorIs(s.execs, s.undone, key, window, t);
      if j :| Outlives(s.execs, s.undone, key, j, window) && s.execs[j].at == t && j != i {
        assert Stands(s.execs, s.undone, key, j);
        assert i < j ==> Meets(s.execs[i], s.execs[j]);
        assert j < i ==> Meets(s.execs[j], s.execs[i]);
        assert Outlives(s.execs, undone, key, j, window);
      }
      if j :| Outlives(s.execs, undone, key, j, window) && s.execs[j].at == t {
        assert Stands(s.execs, undone, key, j) && j != i;
        assert i < j ==> Meets(s.execs[i], s.execs[j]);
        assert j < i ==> Meets(s.execs[j], s.execs[i]);
        assert Outlives(s.execs, s.undone, key, j, window);
      }
    }
  }

  lemma UndoKeepsAnyOrderInv(s: State, i: nat, window: int)
    requires AnyOrderInv(s, window) && i < |s.execs| && !s.execs[i].allowed
    ensures AnyOrderInv(State(AfterRemove(s.sets, s.execs[i].key, s.execs[i].at), s.execs, s.undone + {i}), window)
  {
    var s' := State(AfterRemove(s.sets, s.execs[i].key, s.execs[i].at), s.execs, s.undone + {i});
    forall key ensures Holds(s', key, window) {
      assert Holds(s, key, window);
      UndoTakesOne(s, i, key, window);
    }
  }

  lemma StepKeepsAnyOrderInv(s: State, step: Step, limit: int, window: int)
    requires AnyOrderInv(s, window) && CanRun(s, step)
    ensures AnyOrderInv(Apply(s, step, limit, window), window)
  {
    match step
    case Undo(i) => UndoKeepsAnyOrderInv(s, i, window);
    case Pipeline(key, at, server) =>
      var allowed := PipelineCount(s.sets, key, at, server, window) <= limit;
      VerdictIsFree(s.execs, Exec(key, at, server, true), allowed);
      PipelineKeepsAnyOrderInv(s, Exec(key, at, server, allowed), window);
  }

  lemma {:induction false} RunKeepsAnyOrderInv(steps: seq<Step>, states: seq<State>, i: nat, limit: int, window: int)
    requires IsRunInAnyOrder(steps, states, limit, window) && i < |states|
    ensures AnyOrderInv(states[i], window)
  {
    if i > 0 {
      RunKeepsAnyOrderInv(steps, states, i - 1, limit, window);
      StepKeepsAnyOrderInv(states[i - 1], steps[i - 1], limit, window);
    }
  }

  lemma CountIsSurvivors(s: State, e: Exec, window: int)
    requires AnyOrderInv(s, window) && InAnyOrder(s.execs + [e])
    ensures PipelineCount(s.sets, e.key, e.at, e.server, window) ==
            |Later(Survivors(s.execs, s.undone, e.key, window), e.at - window)| + 1
  {
    UnprunedAreSurvivors(s, e, window);
    var unpruned := Unpruned(s.sets, e.key, e.at, e.server, window);
    assert e.at !in unpruned;
    assert |unpruned + {e.at}| == |unpruned| + 1;
  }

  /** The verdict, exactly, for pipelines in any order: a call is let in iff fewer than `limit`
      entries stand that are stamped in its window and that no pipeline run after them has pruned by
      its own stamp. Expiry of the whole key is never seen. */
  lemma VerdictInAnyOrder(steps: seq<Step>, states: seq<State>, i: nat, limit: int, window: int)
    requires IsRunInAnyOrder(steps, states, limit, window) && i < |steps| && steps[i].Pipeline?
    ensures var s, step := states[i], steps[i];
            && |states[i + 1].execs| == |s.execs| + 1
            && (states[i + 1].execs[|s.execs|].allowed <==>
                  |Later(Survivors(s.execs, s.undone, step.key, window), step.at - window)| < limit)
  {
    RunKeepsAnyOrderInv(steps, states, i, limit, window);
    assert states[i + 1] == Apply(states[i], steps[i], limit, window);
    CountIsSurvivors(states[i], Exec(steps[i].key, steps[i].at, steps[i].server, true), window);
  }

  // ---- What is left of the bound ----

  ghost predicate IsAdmission(execs: seq<Exec>, key: string, at: int, i: int) {
    0 <= i < |execs| && execs[i].allowed && execs[i].key == key && execs[i].at == at
  }

  lemma {:induction false} AdmittedComesFrom(execs: seq<Exec>, key: string, at: int) returns (i: int)
    requires at in Admitted(ToCalls(execs), key)
    ensures IsAdmission(execs, key, at, i)
  {
    var n := |execs| - 1;
    var e := execs[n];
    AdmittedSnoc(ToCalls(execs[..n]), Call(e.key, e.at, e.allowed), key);
    if e.key == key && e.allowed && e.at == at {
      i := n;
    } else {
      i := AdmittedComesFrom(execs[..n], key, at);
    }
  }

  lemma {:induction false} AdmittedAreDistinct(execs: seq<Exec>, key: string)
    requires InAnyOrder(execs)
    ensures NoRepeats(Admitted(ToCalls(execs), key))
  {
    if execs != [] {
      var n := |execs| - 1;
      var e := execs[n];
      assert InAnyOrder(execs[..n]) by {
        assert forall i :: 0 <= i < n ==> execs[..n][i] == execs[i];
      }
      AdmittedAreDistinct(execs[..n], key);
      AdmittedSnoc(ToCalls(execs[..n]), Call(e.key, e.at, e.allowed), key);
      forall i | 0 <= i < n && execs[i].key == e.key ensures execs[i].at != e.at { assert Meets(execs[i], execs[n]); }
      if e.key == key && e.at in Admitted(ToCalls(execs[..n]), key) {
        var i := AdmittedComesFrom(execs[..n], key, e.at);
      }
    }
  }

  /** An admission that is `window - slack` recent for the caller has been pruned by nobody. */
  lemma RecentSurvives(s: State, e: Exec, slack: nat, window: int, t: int)
    requires InAnyOrder(s.execs + [e]) && Within(s.execs + [e], slack)
    requires t in Admitted(ToCalls(s.execs), e.key) && t > e.at - (window - slack)
    ensures t in Later(Survivors(s.execs, s.undone, e.key, window), e.at - window)
  {
    var all := s.execs + [e];
    var i := AdmittedComesFrom(s.execs, e.key, t);
    forall j | 0 <= j < |s.execs| && s.execs[j].key == e.key ensures s.execs[j].at <= e.at + slack {
      assert all[j] == s.execs[j] && all[|s.execs|] == e;
    }
    assert Outlives(s.execs, s.undone, e.key, i, window);
    SurvivorIs(s.execs, s.undone, e.key, window, t);
  }

  lemma AdmittedHasRoom(s: State, e: Exec, slack: nat, limit: int, window: int)
    requires AnyOrderInv(s, window) && InAnyOrder(s.execs + [e]) && Within(s.execs + [e], slack)
    requires PipelineCount(s.sets, e.key, e.at, e.server, window) <= limit
    ensures |Recent(Admitted(ToCalls(s.execs), e.key), e.at - (window - slack))| < limit
  {
    var stamps, lo := Admitted(ToCalls(s.execs), e.key), e.at - (window - slack);
    AdmittedAreDistinct(s.execs, e.key);
    RecentOfDistinct(stamps, lo);
    forall t | t in SetOf(Recent(stamps, lo))
      ensures t in Later(Survivors(s.execs, s.undone, e.key, window), e.at - window)
    {
      RecentSurvives(s, e, slack, window, t);
    }
    SubsetSize(SetOf(Recent(stamps, lo)), Later(Survivors(s.execs, s.undone, e.key, window), e.at - window));
    CountIsSurvivors(s, e, window);
  }

  lemma PipelineIsThrottled(s: State, e: Exec, slack: nat, limit: int, window: int)
    requires AnyOrderInv(s, window) && Throttled(ToCalls(s.execs), limit, window - slack)
    requires InAnyOrder(s.execs + [e]) && Within(s.execs + [e], slack)
    requires e.allowed ==> PipelineCount(s.sets, e.key, e.at, e.server, window) <= limit
    ensures Throttled(ToCalls(s.execs + [e]), limit, window - slack)
  {
    if e.allowed { AdmittedHasRoom(s, e, slack, limit, window); }
    ThrottledSnoc(ToCalls(s.execs), Call(e.key, e.at, e.allowed), limit, window - slack);
    ToCallsSnoc(s.execs, e);
  }

  lemma WithinPrefix(execs: seq<Exec>, e: Exec, slack: nat)
    requires Within(execs + [e], slack)
    ensures Within(execs, slack)
  {
    var all := execs + [e];
    assert forall i :: 0 <= i < |execs| ==> all[i] == execs[i];
  }

  lemma {:induction false} RunIsThrottled(steps: seq<Step>, states: seq<State>, i: nat,
                                          slack: nat, limit: int, window: int)
    requires IsRunInAnyOrder(steps, states, limit, window) && i < |states| && Within(states[i].execs, slack)
    ensures Throttled(ToCalls(states[i].execs), limit, window - slack)
  {
    if i > 0 {
      var s, step := states[i - 1], steps[i - 1];
      assert states[i] == Apply(s, step, limit, window);
      RunKeepsAnyOrderInv(steps, states, i - 1, limit, window);
      if step.Pipeline? {
        var e := states[i].execs[|s.execs|];
        assert states[i].execs == s.execs + [e];
        WithinPrefix(s.execs, e, slack);
        RunIsThrottled(steps, states, i - 1, slack, limit, window);
        VerdictIsFree(s.execs, Exec(step.key, step.at, step.server, true), e.allowed);
        PipelineIsThrottled(s, e, slack, limit, window);
      } else {
        RunIsThrottled(steps, states, i - 1, slack, limit, window);
      }
    }
  }

  /** Overtaking costs just its extent: for every interleaving in which no pipeline is overtaken by
      more than `slack`, the limiter bounds windows that are shorter by `slack`. */
  lemma ReorderedAdmissionBound(steps: seq<Step>, states: seq<State>, i: nat, key: string, lo: int, n: nat,
                                slack: nat, limit: int, window: int)
    requires IsRunInAnyOrder(steps, states, limit, window) && i < |states| && Within(states[i].execs, slack)
    ensures |Between(Admitted(ToCalls(states[i].execs), key), lo, lo + n * (window - slack))| <= n * Max(0, limit)
  {
    RunIsThrottled(steps, states, i, slack, limit, window);
    WindowBound(ToCalls(states[i].execs), key, lo, n, limit, window - slack);
  }

  lemma {:induction false} BetweenGrows(stamps: seq<int>, lo: int, hi: int, later: int)
    requires hi <= later
    ensures |Between(stamps, lo, hi)| <= |Between(stamps, lo, later)|
  {
    if stamps != [] { BetweenGrows(stamps[..|stamps| - 1], lo, hi, later); }
  }

  /** So a full window never holds more than twice the limit while overtaking stays within half of
      it. */
  lemma FullWindowBound(steps: seq<Step>, states: seq<State>, i: nat, key: string, lo: int,
                        slack: nat, limit: int, window: int)
    requires IsRunInAnyOrder(steps, states, limit, window) && i < |states| && Within(states[i].execs, slack)
    requires 2 * slack <= window
    ensures |Between(Admitted(ToCalls(states[i].execs), key), lo, lo + window)| <= 2 * Max(0, limit)
  {
    var stamps, short := Admitted(ToCalls(states[i].execs), key), window - slack;
    ReorderedAdmissionBound(steps, states, i, key, lo, 1, slack, limit, window);
    ReorderedAdmissionBound(steps, states, i, key, lo + short, 1, slack, limit, window);
    BetweenSplit(stamps, lo, lo + short, lo + short + short);
    BetweenGrows(stamps, lo, lo + window, lo + short + short);
  }

  const EARLY := Exec("k", 1, 1, true)
  const NEXT := Exec("k", 2, 2, true)
  const OVERTAKING := Exec("k", 8, 8, true)
  const OVERTAKEN := Exec("k", 5, 9, true)

  /** And the order is needed for the full window: of four calls with distinct stamps and hardly any
      delay, the one stamped 5 runs after the one stamped 8, which has pruned the admissions at 1
      and 2; so three are admitted in (0, 5] where two are allowed. */
  lemma OvertakingAdmitsMore()
    ensures var execs := [EARLY, NEXT, OVERTAKING, OVERTAKEN];
            && SequentialRun(execs, 2, 5) && InAnyOrder(execs) && Within(execs, 3) && !Ordered(execs)
            && |Between(Admitted(ToCalls(execs), "k"), 0, 5)| == 3
  {
    var execs := [EARLY, NEXT, OVERTAKING, OVERTAKEN];
    OvertakingRuns();
    OvertakingAdmissions();
    assert !Precedes(execs[2], execs[3]);
  }

  lemma RunsOn(execs: seq<Exec>, e: Exec, more: seq<Exec>, limit: int, window: int)
    requires SequentialRun(execs, limit, window) && Follows(execs, e, limit, window) && more == execs + [e]
    ensures SequentialRun(more, limit, window)
  {
    SequentialSnoc(execs, e, limit, window);
  }

  lemma SetsOn(execs: seq<Exec>, e: Exec, more: seq<Exec>, sets: Keyspace, window: int)
    requires more == execs + [e] && e.allowed
    requires sets == AfterPipeline(SequentialSets(execs, window), e.key, e.at, e.server, window)
    ensures SequentialSets(more, window) == sets
  {
    assert more[..|execs|] == execs;
  }

  lemma OvertakingSets()
    ensures SequentialSets([EARLY], 5) == map["k" := ZSet({1}, 16)]
    ensures SequentialSets([EARLY, NEXT], 5) == map["k" := ZSet({1, 2}, 17)]
    ensures SequentialSets([EARLY, NEXT, OVERTAKING], 5) == map["k" := ZSet({8}, 23)]
  {
    var one, two, three := map["k" := ZSet({1}, 16)], map["k" := ZSet({1, 2}, 17)], map["k" := ZSet({8}, 23)];
    assert SequentialSets([], 5) == map[];
    assert Unpruned(map[], "k", 1, 1, 5) + {1} == {1};
    SetsOn([], EARLY, [EARLY], one, 5);
    assert Unpruned(one, "k", 2, 2, 5) + {2} == {1, 2};
    SetsOn([EARLY], NEXT, [EARLY, NEXT], two, 5);
    assert Unpruned(two, "k", 8, 8, 5) + {8} == {8};
    SetsOn([EARLY, NEXT], OVERTAKING, [EARLY, NEXT, OVERTAKING], three, 5);
  }

  lemma OvertakingFollows()
    ensures Follows([], EARLY, 2, 5) && Follows([EARLY], NEXT, 2, 5)
    ensures Follows([EARLY, NEXT], OVERTAKING, 2, 5) && Follows([EARLY, NEXT, OVERTAKING], OVERTAKEN, 2, 5)
  {
    OvertakingSets();
    assert SequentialSets([], 5) == map[];
    assert Unpruned(map[], "k", 1, 1, 5) + {1} == {1};
    assert Unpruned(map["k" := ZSet({1}, 16)], "k", 2, 2, 5) + {2} == {1, 2};
    assert Unpruned(map["k" := ZSet({1, 2}, 17)], "k", 8, 8, 5) + {8} == {8};
    assert Unpruned(map["k" := ZSet({8}, 23)], "k", 5, 9, 5) + {5} == {8, 5};
  }

  lemma FirstTwoRun()
    ensures SequentialRun([EARLY, NEXT], 2, 5)
  {
    OvertakingFollows();
    RunsOn([], EARLY, [EARLY], 2, 5);
    RunsOn([EARLY], NEXT, [EARLY, NEXT], 2, 5);
  }

  lemma FirstThreeRun()
    ensures SequentialRun([EARLY, NEXT, OVERTAKING], 2, 5)
  {
    FirstTwoRun();
    OvertakingFollows();
    RunsOn([EARLY, NEXT], OVERTAKING, [EARLY, NEXT, OVERTAKING], 2, 5);
  }

  lemma OvertakingRuns()
    ensures SequentialRun([EARLY, NEXT, OVERTAKING, OVERTAKEN], 2, 5)
  {
    FirstThreeRun();
    OvertakingFollows();
    RunsOn([EARLY, NEXT, OVERTAKING], OVERTAKEN, [EARLY, NEXT, OVERTAKING, OVERTAKEN], 2, 5);
  }

  lemma CallsOn(execs: seq<Exec>, e: Exec, more: seq<Exec>)
    requires more == execs + [e]
    ensures ToCalls(more) == ToCalls(execs) + [Call(e.key, e.at, e.allowed)]
  {
    ToCallsSnoc(execs, e);
  }

  lemma OvertakingAdmissions()
    ensures |Between(Admitted(ToCalls([EARLY, NEXT, OVERTAKING, OVERTAKEN]), "k"), 0, 5)| == 3
  {
    var none: seq<Event>, empty: seq<int> := [], [];
    var a, b, c, d := Call("k", 1, true), Call("k", 2, true), Call("k", 8, true), Call("k", 5, true);
    CallsOn([], EARLY, [EARLY]);
    CallsOn([EARLY], NEXT, [EARLY, NEXT]);
    CallsOn([EARLY, NEXT], OVERTAKING, [EARLY, NEXT, OVERTAKING]);
    CallsOn([EARLY, NEXT, OVERTAKING], OVERTAKEN, [EARLY, NEXT, OVERTAKING, OVERTAKEN]);
    AdmittedSnoc(none, a, "k");
    AdmittedSnoc(none + [a], b, "k");
    AdmittedSnoc(none + [a] + [b], c, "k");
    AdmittedSnoc(none + [a] + [b] + [c], d, "k");
    BetweenSnoc(empty, 1, 0, 5);
    BetweenSnoc(empty + [1], 2, 0, 5);
    BetweenSnoc(empty + [1] + [2], 8, 0, 5);
    BetweenSnoc(empty + [1] + [2] + [8], 5, 0, 5);
  }
}
