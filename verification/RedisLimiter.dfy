/** The Redis limiter of backend/app/middleware/distributed_rate_limit.py. A call is two server
    round trips: an atomic pipeline (prune, add, count, set expiry) and, when the count is over
    the limit, a separate removal of the entry just added. Between the two, other clients run. */
module RedisLimiter {
  import opened Basics
  import opened SlidingWindow
  import MemoryLimiter

  /** A sorted set whose member is the text of its score, with the key's expiry time. */
  datatype ZSet = ZSet(members: set<int>, deadline: int)

  type Keyspace = map<string, ZSet>

  /** Seconds the key outlives its window. */
  const TTL_MARGIN := 10

  // ---- What the server does ----

  function Live(sets: Keyspace, key: string, server: int): set<int> {
    if key in sets && server < sets[key].deadline then sets[key].members else {}
  }

  function Unpruned(sets: Keyspace, key: string, at: int, server: int, window: int): set<int> {
    set t | t in Live(sets, key, server) && !(0 <= t <= at - window)
  }

  function PipelineCount(sets: Keyspace, key: string, at: int, server: int, window: int): nat {
    |Unpruned(sets, key, at, server, window) + {at}|
  }

  function AfterPipeline(sets: Keyspace, key: string, at: int, server: int, window: int): Keyspace {
    sets[key := ZSet(Unpruned(sets, key, at, server, window) + {at}, server + window + TTL_MARGIN)]
  }

  function AfterRemove(sets: Keyspace, key: string, at: int): Keyspace {
    if key in sets then sets[key := ZSet(sets[key].members - {at}, sets[key].deadline)] else sets
  }

  // ---- The protocol: any number of clients, their two steps interleaved ----

  /** One executed pipeline: the client's stamp, the server's clock, the verdict. */
  datatype Exec = Exec(key: string, at: int, server: int, allowed: bool)

  /** `undone` holds the executions whose entry has been taken out again. A client that dies
      before its removal is one whose execution never gets there. */
  datatype State = State(sets: Keyspace, execs: seq<Exec>, undone: set<nat>)

  datatype Step = Pipeline(key: string, at: int, server: int) | Undo(client: nat)

  const Start := State(map[], [], {})

  /** Per key, stamps are distinct and executed in stamp order, the server's clock does not run
      backwards, and no call is delayed beyond an earlier one by more than the expiry margin. */
  ghost predicate Ordered(execs: seq<Exec>) {
    && (forall i :: 0 <= i < |execs| ==> execs[i].at >= 0)
    && (forall i, j :: 0 <= i < j < |execs| ==> Precedes(execs[i], execs[j]))
  }

  /** From the client's stamp to the server's clock: the time under way, plus how far the server's
      clock is ahead of the client's. It may be negative. */
  function Delay(e: Exec): int {
    e.server - e.at
  }

  predicate Timely(d: Exec, e: Exec) {
    d.server <= e.server && Delay(e) <= Delay(d) + TTL_MARGIN
  }

  predicate Precedes(d: Exec, e: Exec) {
    d.key == e.key ==> d.at < e.at && Timely(d, e)
  }

  ghost predicate Enabled(s: State, step: Step) {
    match step
    case Pipeline(key, at, server) => Ordered(s.execs + [Exec(key, at, server, true)])
    case Undo(i) => i < |s.execs| && !s.execs[i].allowed && i !in s.undone
  }

  function Apply(s: State, step: Step, limit: int, window: int): State
    requires step.Undo? ==> step.client < |s.execs|
  {
    match step
    case Pipeline(key, at, server) =>
      var allowed := PipelineCount(s.sets, key, at, server, window) <= limit;
      State(AfterPipeline(s.sets, key, at, server, window), s.execs + [Exec(key, at, server, allowed)], s.undone)
    case Undo(i) =>
      State(AfterRemove(s.sets, s.execs[i].key, s.execs[i].at), s.execs, s.undone + {i})
  }

  /** Any interleaving: `states` is a run of the protocol through `steps`. */
  ghost predicate IsTrace(steps: seq<Step>, states: seq<State>, limit: int, window: int) {
    && |states| == |steps| + 1
    && states[0] == Start
    && forall i :: 0 <= i < |steps| ==>
         Enabled(states[i], steps[i]) && states[i + 1] == Apply(states[i], steps[i], limit, window)
  }

  // ---- What the sorted set holds ----

  /** The entries of `key` that still stand: admissions, and denials not yet taken out. */
  function Counted(execs: seq<Exec>, undone: set<nat>, key: string): seq<int> {
    if execs == [] then [] else
      var n := |execs| - 1;
      var rest := Counted(execs[..n], undone, key);
      if execs[n].key == key && (execs[n].allowed || n !in undone) then rest + [execs[n].at] else rest
  }

  lemma CountedSnoc(execs: seq<Exec>, e: Exec, undone: set<nat>, key: string)
    ensures Counted(execs + [e], undone, key) ==
            if e.key == key && (e.allowed || |execs| !in undone) then Counted(execs, undone, key) + [e.at]
            else Counted(execs, undone, key)
  {
    assert (execs + [e])[..|execs|] == execs;
  }

  ghost predicate Stands(execs: seq<Exec>, undone: set<nat>, key: string, i: int) {
    0 <= i < |execs| && execs[i].key == key && (execs[i].allowed || i !in undone)
  }

  lemma {:induction false} CountedMembers(execs: seq<Exec>, undone: set<nat>, key: string, t: int)
    ensures t in Counted(execs, undone, key) <==>
            exists i :: Stands(execs, undone, key, i) && execs[i].at == t
  {
    if execs != [] {
      var n := |execs| - 1;
      var init := execs[..n];
      CountedMembers(init, undone, key, t);
      if i :| Stands(init, undone, key, i) && init[i].at == t {
        assert Stands(execs, undone, key, i) && execs[i].at == t;
      }
      if i :| Stands(execs, undone, key, i) && execs[i].at == t {
        if i < n { assert Stands(init, undone, key, i) && init[i].at == t; }
      }
      if Stands(execs, undone, key, n) {
        assert execs[n].at in Counted(execs, undone, key);
      }
    }
  }

  ghost predicate Increasing(s: seq<int>) {
    forall i, j :: 0 <= i < j < |s| ==> s[i] < s[j]
  }

  lemma OrderedIgnoresVerdicts(execs: seq<Exec>, e: Exec, allowed: bool)
    requires Ordered(execs + [e])
    ensures Ordered(execs + [e.(allowed := allowed)])
  {
    var all, alt := execs + [e], execs + [e.(allowed := allowed)];
    assert forall i :: 0 <= i < |alt| ==>
      alt[i].key == all[i].key && alt[i].at == all[i].at && alt[i].server == all[i].server;
  }

  lemma OrderedPrefix(execs: seq<Exec>)
    requires execs != [] && Ordered(execs)
    ensures Ordered(execs[..|execs| - 1])
  {
  }

  lemma {:induction false} CountedIncreases(execs: seq<Exec>, undone: set<nat>, key: string)
    requires Ordered(execs)
    ensures Increasing(Counted(execs, undone, key))
  {
    if execs != [] {
      var n := |execs| - 1;
      var c := Counted(execs[..n], undone, key);
      CountedIncreases(execs[..n], undone, key);
      if execs[n].key == key {
        forall k | 0 <= k < |c| ensures c[k] < execs[n].at {
          CountedMembers(execs[..n], undone, key, c[k]);
        }
      }
    }
  }

  function SetOf(s: seq<int>): set<int> {
    set t | t in s
  }

  lemma {:induction false} RecentOfDistinct(stamps: seq<int>, lo: int)
    requires NoRepeats(stamps)
    ensures |SetOf(Recent(stamps, lo))| == |Recent(stamps, lo)|
    ensures forall t :: t in Recent(stamps, lo) <==> t in stamps && t > lo
  {
    if stamps != [] {
      var init, x := stamps[..|stamps| - 1], stamps[|stamps| - 1];
      RecentOfDistinct(init, lo);
      assert stamps == init + [x] && x !in init;
      if x > lo { assert SetOf(Recent(stamps, lo)) == SetOf(Recent(init, lo)) + {x}; }
    }
  }

  /** The last execution on `key`, as an index; -1 when there is none. */
  function LastOn(execs: seq<Exec>, key: string): (i: int)
    ensures -1 <= i < |execs|
    ensures i >= 0 ==> execs[i].key == key
    ensures forall j :: i < j < |execs| ==> execs[j].key != key
  {
    if execs == [] then -1
    else if execs[|execs| - 1].key == key then |execs| - 1
    else LastOn(execs[..|execs| - 1], key)
  }

  /** The server holds, per key, exactly the standing entries inside the last window. */
  ghost predicate KeyInv(s: State, key: string, window: int) {
    var last := LastOn(s.execs, key);
    if last < 0 then key !in s.sets
    else
      && key in s.sets
      && s.sets[key].deadline == s.execs[last].server + window + TTL_MARGIN
      && s.sets[key].members ==
         set t | t in Counted(s.execs, s.undone, key)
                 && (t > s.execs[last].at - window || t == s.execs[last].at)
  }

  ghost predicate Inv(s: State, window: int) {
    && Ordered(s.execs)
    && (forall i :: i in s.undone ==> i < |s.execs| && !s.execs[i].allowed)
    && forall key :: KeyInv(s, key, window)
  }

  /** At the time of a pipeline the unpruned part of the live set is exactly the standing entries
      in the caller's window: pruning and expiry lose nothing that still counts. */
  lemma UnprunedIsCounted(s: State, key: string, at: int, server: int, window: int)
    requires Inv(s, window) && Ordered(s.execs + [Exec(key, at, server, true)])
    ensures Unpruned(s.sets, key, at, server, window) ==
            set t | t in Counted(s.execs, s.undone, key) && t > at - window
    ensures at !in Counted(s.execs, s.undone, key)
  {
    assert KeyInv(s, key, window);
    var e := Exec(key, at, server, true);
    var all := s.execs + [e];
    assert all[|s.execs|] == e;
    forall t | t in Counted(s.execs, s.undone, key)
      ensures 0 <= t < at
      ensures LastOn(s.execs, key) >= 0 && t <= s.execs[LastOn(s.execs, key)].at
    {
      CountedMembers(s.execs, s.undone, key, t);
      var i :| Stands(s.execs, s.undone, key, i) && s.execs[i].at == t;
      assert all[i] == s.execs[i];
    }
    var last := LastOn(s.execs, key);
    if last >= 0 { assert all[last] == s.execs[last]; }
  }

  /** The verdict, exactly: admitted iff fewer than `limit` entries stand in the caller's window. */
  lemma VerdictIsExact(s: State, key: string, at: int, server: int, limit: int, window: int)
    requires Inv(s, window) && Ordered(s.execs + [Exec(key, at, server, true)])
    ensures PipelineCount(s.sets, key, at, server, window) <= limit
       <==> |Recent(Counted(s.execs, s.undone, key), at - window)| < limit
  {
    UnprunedIsCounted(s, key, at, server, window);
    CountedIncreases(s.execs, s.undone, key);
    PipelineCounts(s.sets, Counted(s.execs, s.undone, key), key, at, server, window);
  }

  lemma PipelineCounts(sets: Keyspace, counted: seq<int>, key: string, at: int, server: int, window: int)
    requires Increasing(counted) && at !in counted
    requires Unpruned(sets, key, at, server, window) == set t | t in counted && t > at - window
    ensures PipelineCount(sets, key, at, server, window) == |Recent(counted, at - window)| + 1
  {
    var unpruned, recent := Unpruned(sets, key, at, server, window), SetOf(Recent(counted, at - window));
    RecentOfDistinct(counted, at - window);
    forall t ensures t in unpruned <==> t in recent {}
    assert unpruned == recent;
  }

  lemma PipelineKeepsInv(s: State, e: Exec, window: int)
    requires Inv(s, window) && Ordered(s.execs + [e])
    ensures Inv(State(AfterPipeline(s.sets, e.key, e.at, e.server, window), s.execs + [e], s.undone), window)
  {
    var s' := State(AfterPipeline(s.sets, e.key, e.at, e.server, window), s.execs + [e], s.undone);
    OrderedIgnoresVerdicts(s.execs, e, true);
    assert (s.execs + [e])[..|s.execs|] == s.execs;
    forall key ensures KeyInv(s', key, window) {
      assert KeyInv(s, key, window);
      CountedSnoc(s.execs, e, s.undone, key);
      if key == e.key {
        UnprunedIsCounted(s, key, e.at, e.server, window);
      }
    }
  }

  lemma UndoKeepsInv(s: State, i: nat, window: int)
    requires Inv(s, window) && i < |s.execs| && !s.execs[i].allowed && i !in s.undone
    ensures Inv(State(AfterRemove(s.sets, s.execs[i].key, s.execs[i].at), s.execs, s.undone + {i}), window)
  {
    var s' := State(AfterRemove(s.sets, s.execs[i].key, s.execs[i].at), s.execs, s.undone + {i});
    forall key ensures KeyInv(s', key, window) {
      assert KeyInv(s, key, window);
      forall t ensures t in Counted(s.execs, s.undone + {i}, key) <==>
                       t in Counted(s.execs, s.undone, key) && !(key == s.execs[i].key && t == s.execs[i].at)
      {
        RemovalTakesOneEntry(s, i, key, t);
      }
    }
  }

  lemma RemovalTakesOneEntry(s: State, i: nat, key: string, t: int)
    requires Ordered(s.execs) && i < |s.execs| && !s.execs[i].allowed
    ensures t in Counted(s.execs, s.undone + {i}, key) <==>
            t in Counted(s.execs, s.undone, key) && !(key == s.execs[i].key && t == s.execs[i].at)
  {
    CountedMembers(s.execs, s.undone, key, t);
    CountedMembers(s.execs, s.undone + {i}, key, t);
    if j :| Stands(s.execs, s.undone, key, j) && s.execs[j].at == t && j != i {
      assert Stands(s.execs, s.undone + {i}, key, j);
    }
    if j :| Stands(s.execs, s.undone + {i}, key, j) && s.execs[j].at == t {
      assert Stands(s.execs, s.undone, key, j);
    }
  }

  // ---- Verdicts against the full history ----

  /** The executions as plain calls. */
  function ToCalls(execs: seq<Exec>): seq<Event> {
    if execs == [] then [] else
      ToCalls(execs[..|execs| - 1])
      + [Call(execs[|execs| - 1].key, execs[|execs| - 1].at, execs[|execs| - 1].allowed)]
  }

  lemma {:induction false} ToCallsPointwise(execs: seq<Exec>)
    ensures |ToCalls(execs)| == |execs|
    ensures forall i :: 0 <= i < |execs| ==>
              ToCalls(execs)[i] == Call(execs[i].key, execs[i].at, execs[i].allowed)
  {
    if execs != [] { ToCallsPointwise(execs[..|execs| - 1]); }
  }

  lemma OrderedIsMonotone(execs: seq<Exec>)
    requires Ordered(execs)
    ensures Monotone(ToCalls(execs))
  {
    ToCallsPointwise(execs);
  }

  /** Standing entries include every admission, and taking more entries out never adds one. */
  lemma {:induction false} StandingEntries(execs: seq<Exec>, undone: set<nat>, more: set<nat>, key: string, lo: int)
    requires undone <= more
    ensures |Recent(Admitted(ToCalls(execs), key), lo)|
         <= |Recent(Counted(execs, more, key), lo)|
         <= |Recent(Counted(execs, undone, key), lo)|
  {
    if execs != [] {
      var n := |execs| - 1;
      var e := execs[n];
      StandingEntries(execs[..n], undone, more, key, lo);
      AdmittedSnoc(ToCalls(execs[..n]), Call(e.key, e.at, e.allowed), key);
      RecentSnoc(Admitted(ToCalls(execs[..n]), key), e.at, lo);
      RecentSnoc(Counted(execs[..n], undone, key), e.at, lo);
      RecentSnoc(Counted(execs[..n], more, key), e.at, lo);
    }
  }

  /** With every denial taken out, only the admissions stand. */
  lemma {:induction false} AllUndoneLeavesAdmissions(execs: seq<Exec>, undone: set<nat>, key: string)
    requires forall i :: 0 <= i < |execs| && !execs[i].allowed ==> i in undone
    ensures Counted(execs, undone, key) == Admitted(ToCalls(execs), key)
  {
    if execs != [] {
      var n := |execs| - 1;
      AllUndoneLeavesAdmissions(execs[..n], undone, key);
      AdmittedSnoc(ToCalls(execs[..n]), Call(execs[n].key, execs[n].at, execs[n].allowed), key);
    }
  }

  ghost predicate Safe(s: State, limit: int, window: int) {
    Inv(s, window) && Throttled(ToCalls(s.execs), limit, window)
  }

  lemma PipelineIsThrottled(s: State, e: Exec, limit: int, window: int)
    requires Safe(s, limit, window) && Ordered(s.execs + [e])
    requires e.allowed ==> PipelineCount(s.sets, e.key, e.at, e.server, window) <= limit
    ensures Throttled(ToCalls(s.execs + [e]), limit, window)
  {
    OrderedIgnoresVerdicts(s.execs, e, true);
    VerdictIsExact(s, e.key, e.at, e.server, limit, window);
    StandingEntries(s.execs, s.undone, s.undone, e.key, e.at - window);
    ThrottledSnoc(ToCalls(s.execs), Call(e.key, e.at, e.allowed), limit, window);
    ToCallsSnoc(s.execs, e);
  }

  lemma StepIsSafe(s: State, step: Step, limit: int, window: int)
    requires Safe(s, limit, window) && Enabled(s, step)
    ensures Safe(Apply(s, step, limit, window), limit, window)
  {
    match step
    case Undo(i) => UndoKeepsInv(s, i, window);
    case Pipeline(key, at, server) =>
      var allowed := PipelineCount(s.sets, key, at, server, window) <= limit;
      OrderedIgnoresVerdicts(s.execs, Exec(key, at, server, true), allowed);
      PipelineKeepsInv(s, Exec(key, at, server, allowed), window);
      PipelineIsThrottled(s, Exec(key, at, server, allowed), limit, window);
  }

  lemma ThrottledSnoc(h: seq<Event>, e: Event, limit: int, window: int)
    requires Throttled(h, limit, window)
    requires e.Call? && e.allowed ==> |Recent(Admitted(h, e.key), e.at - window)| < limit
    ensures Throttled(h + [e], limit, window)
  {
    assert (h + [e])[..|h|] == h;
  }

  lemma {:induction false} TraceIsSafe(steps: seq<Step>, states: seq<State>, i: nat, limit: int, window: int)
    requires IsTrace(steps, states, limit, window) && i < |states|
    ensures Safe(states[i], limit, window)
  {
    if i > 0 {
      TraceIsSafe(steps, states, i - 1, limit, window);
      StepIsSafe(states[i - 1], steps[i - 1], limit, window);
    }
  }

  /** Whatever the interleaving of pipelines and removals, and whichever clients die between
      the two, n consecutive windows never hold more than n * limit admissions of one key. */
  lemma ConcurrentAdmissionBound(steps: seq<Step>, states: seq<State>, i: nat, key: string,
                                 lo: int, n: nat, limit: int, window: int)
    requires IsTrace(steps, states, limit, window) && i < |states|
    ensures |Between(Admitted(ToCalls(states[i].execs), key), lo, lo + n * window)| <= n * Max(0, limit)
  {
    TraceIsSafe(steps, states, i, limit, window);
    OrderedIsMonotone(states[i].execs);
    WindowBound(ToCalls(states[i].execs), key, lo, n, limit, window);
  }

  /** Tentative entries can only cost admissions. At every pipeline of every run: a call that is
      let in would be let in by the full-history rule; a call that rule would turn away is turned
      away; and the two differ exactly when denials not yet taken out fill the room. */
  lemma TentativeEntriesOnlyDeny(steps: seq<Step>, states: seq<State>, i: nat, limit: int, window: int)
    requires IsTrace(steps, states, limit, window) && i < |steps| && steps[i].Pipeline?
    ensures var s, step := states[i], steps[i];
            var allowed := states[i + 1].execs[|s.execs|].allowed;
            var admitted := |Recent(Admitted(ToCalls(s.execs), step.key), step.at - window)|;
            var standing := |Recent(Counted(s.execs, s.undone, step.key), step.at - window)|;
            && |states[i + 1].execs| == |s.execs| + 1
            && (allowed ==> admitted < limit)
            && (!allowed && admitted < limit <==> admitted < limit <= standing)
  {
    var s, step := states[i], steps[i];
    assert states[i + 1] == Apply(s, step, limit, window);
    TraceIsSafe(steps, states, i, limit, window);
    VerdictIsExact(s, step.key, step.at, step.server, limit, window);
    StandingEntries(s.execs, s.undone, s.undone, step.key, step.at - window);
  }

  // ---- One caller at a time: the same limiter as the in-memory one ----

  /** The key space after calls that each finish before the next one starts. */
  function SequentialSets(execs: seq<Exec>, window: int): Keyspace {
    if execs == [] then map[] else
      var e := execs[|execs| - 1];
      var added := AfterPipeline(SequentialSets(execs[..|execs| - 1], window), e.key, e.at, e.server, window);
      if e.allowed then added else AfterRemove(added, e.key, e.at)
  }

  /** The verdict of `e` is the one it gets when called right after `before`. */
  ghost predicate Follows(before: seq<Exec>, e: Exec, limit: int, window: int) {
    e.allowed <==> PipelineCount(SequentialSets(before, window), e.key, e.at, e.server, window) <= limit
  }

  ghost predicate SequentialRun(execs: seq<Exec>, limit: int, window: int) {
    execs != [] ==>
      && SequentialRun(execs[..|execs| - 1], limit, window)
      && Follows(execs[..|execs| - 1], execs[|execs| - 1], limit, window)
  }

  function Denials(execs: seq<Exec>): set<nat> {
    set i: nat | i < |execs| && !execs[i].allowed
  }

  lemma {:induction false} SequentialInv(execs: seq<Exec>, window: int)
    requires Ordered(execs)
    ensures Inv(State(SequentialSets(execs, window), execs, Denials(execs)), window)
  {
    if execs != [] {
      var n := |execs| - 1;
      var e := execs[n];
      var before := State(SequentialSets(execs[..n], window), execs[..n], Denials(execs[..n]));
      SequentialInv(execs[..n], window);
      assert execs == execs[..n] + [e];
      PipelineKeepsInv(before, e, window);
      var added := State(AfterPipeline(before.sets, e.key, e.at, e.server, window), execs, before.undone);
      if !e.allowed {
        UndoKeepsInv(added, n, window);
        assert Denials(execs) == before.undone + {n};
      } else {
        assert Denials(execs) == before.undone;
      }
    }
  }

  lemma SequentialVerdict(execs: seq<Exec>, key: string, at: int, server: int, limit: int, window: int)
    requires Ordered(execs + [Exec(key, at, server, true)])
    ensures PipelineCount(SequentialSets(execs, window), key, at, server, window) <= limit
       <==> |Recent(Admitted(ToCalls(execs), key), at - window)| < limit
  {
    OrderedPrefix(execs + [Exec(key, at, server, true)]);
    assert (execs + [Exec(key, at, server, true)])[..|execs|] == execs;
    SequentialInv(execs, window);
    VerdictIsExact(State(SequentialSets(execs, window), execs, Denials(execs)), key, at, server, limit, window);
    AllUndoneLeavesAdmissions(execs, Denials(execs), key);
  }

  lemma SequentialStepVerdict(execs: seq<Exec>, e: Exec, limit: int, window: int)
    requires Ordered(execs + [e])
    ensures Follows(execs, e, limit, window) <==>
            (e.allowed <==> |Recent(Admitted(ToCalls(execs), e.key), e.at - window)| < limit)
  {
    OrderedIgnoresVerdicts(execs, e, true);
    SequentialVerdict(execs, e.key, e.at, e.server, limit, window);
  }

  lemma SequentialSnoc(execs: seq<Exec>, e: Exec, limit: int, window: int)
    ensures SequentialRun(execs + [e], limit, window) <==>
            SequentialRun(execs, limit, window) && Follows(execs, e, limit, window)
  {
    assert (execs + [e])[..|execs|] == execs;
  }

  lemma ToCallsSnoc(execs: seq<Exec>, e: Exec)
    ensures ToCalls(execs + [e]) == ToCalls(execs) + [Call(e.key, e.at, e.allowed)]
  {
    assert (execs + [e])[..|execs|] == execs;
  }

  lemma SequentialStepIsIdeal(execs: seq<Exec>, e: Exec, limit: int, window: int)
    requires Ordered(execs + [e])
    requires SequentialRun(execs, limit, window) <==> Ideal(ToCalls(execs), limit, window)
    ensures SequentialRun(execs + [e], limit, window) <==> Ideal(ToCalls(execs + [e]), limit, window)
  {
    SequentialSnoc(execs, e, limit, window);
    ToCallsSnoc(execs, e);
    SequentialStepVerdict(execs, e, limit, window);
    IdealSnoc(ToCalls(execs), Call(e.key, e.at, e.allowed), limit, window);
  }

  /** Add, count, then undo gives the verdicts of the full-history rule. */
  lemma {:induction false} SequentialIsIdeal(execs: seq<Exec>, limit: int, window: int)
    requires Ordered(execs)
    ensures SequentialRun(execs, limit, window) <==> Ideal(ToCalls(execs), limit, window)
  {
    if execs != [] {
      var init, e := execs[..|execs| - 1], execs[|execs| - 1];
      assert execs == init + [e];
      OrderedPrefix(execs);
      SequentialIsIdeal(init, limit, window);
      SequentialStepIsIdeal(init, e, limit, window);
    }
  }

  /** The two limiters are interchangeable: on every sequential run they give the same verdicts.
      Expiry of the whole key, which the in-memory limiter does not have, is never seen. */
  lemma LimitersAgree(execs: seq<Exec>, limit: int, window: int)
    requires Ordered(execs)
    ensures SequentialRun(execs, limit, window) <==> MemoryLimiter.IsRun(ToCalls(execs), limit, window)
  {
    SequentialIsIdeal(execs, limit, window);
    OrderedIsMonotone(execs);
    MemoryLimiter.RefinesFullHistory(ToCalls(execs), limit, window);
  }

  /** The executions that the mask keeps. */
  function KeepExecs(execs: seq<Exec>, mask: seq<bool>): seq<Exec>
    requires |mask| == |execs|
  {
    if execs == [] then [] else
      var rest := KeepExecs(execs[..|execs| - 1], mask[..|execs| - 1]);
      if mask[|execs| - 1] then rest + [execs[|execs| - 1]] else rest
  }

  lemma {:induction false} KeepTakesExecs(execs: seq<Exec>, mask: seq<bool>)
    requires |mask| == |execs|
    ensures forall e :: e in KeepExecs(execs, mask) ==> e in execs
  {
    if execs != [] {
      KeepTakesExecs(execs[..|execs| - 1], mask[..|execs| - 1]);
      assert forall e :: e in execs[..|execs| - 1] ==> e in execs;
    }
  }

  lemma LastIsPreceded(execs: seq<Exec>, d: Exec)
    requires execs != [] && Ordered(execs) && d in execs[..|execs| - 1]
    ensures Precedes(d, execs[|execs| - 1])
  {
    var i :| 0 <= i < |execs| - 1 && execs[..|execs| - 1][i] == d;
    assert execs[i] == d;
  }

  lemma {:induction false} KeepIsOrdered(execs: seq<Exec>, mask: seq<bool>)
    requires |mask| == |execs| && Ordered(execs)
    ensures Ordered(KeepExecs(execs, mask))
  {
    if execs != [] {
      var n := |execs| - 1;
      OrderedPrefix(execs);
      KeepIsOrdered(execs[..n], mask[..n]);
      KeepTakesExecs(execs[..n], mask[..n]);
      var kept := KeepExecs(execs[..n], mask[..n]);
      forall d | d in kept ensures Precedes(d, execs[n]) { LastIsPreceded(execs, d); }
      OrderedSnoc(kept, execs[n]);
    }
  }

  lemma {:induction false} KeepExecsIsKeep(execs: seq<Exec>, mask: seq<bool>)
    requires |mask| == |execs|
    ensures |ToCalls(execs)| == |execs|
    ensures ToCalls(KeepExecs(execs, mask)) == MemoryLimiter.Keep(ToCalls(execs), mask)
  {
    ToCallsPointwise(execs);
    if execs != [] {
      var n := |execs| - 1;
      KeepExecsIsKeep(execs[..n], mask[..n]);
      ToCallsSnoc(KeepExecs(execs[..n], mask[..n]), execs[n]);
      assert ToCalls(execs)[..n] == ToCalls(execs[..n]);
    }
  }

  lemma OrderedSnoc(execs: seq<Exec>, e: Exec)
    requires Ordered(execs)
    ensures e.at >= 0 && (forall d :: d in execs ==> Precedes(d, e)) ==> Ordered(execs + [e])
  {
    if e.at >= 0 && forall d :: d in execs ==> Precedes(d, e) {
      var all := execs + [e];
      forall i, j | 0 <= i < j < |all| ensures Precedes(all[i], all[j]) {
        assert all[i] in execs;
      }
    }
  }

  /** Denied calls are free here too: delete any of them from a sequential run and every
      remaining call still gets the verdict it got. */
  lemma DeniedCallsAreFree(execs: seq<Exec>, mask: seq<bool>, limit: int, window: int)
    requires SequentialRun(execs, limit, window) && Ordered(execs) && |mask| == |execs|
    requires forall i :: 0 <= i < |execs| && !mask[i] ==> !execs[i].allowed
    ensures SequentialRun(KeepExecs(execs, mask), limit, window)
  {
    ToCallsPointwise(execs);
    LimitersAgree(execs, limit, window);
    OrderedIsMonotone(execs);
    MemoryLimiter.DeniedCallsAreFree(ToCalls(execs), mask, limit, window);
    KeepExecsIsKeep(execs, mask);
    KeepIsOrdered(execs, mask);
    LimitersAgree(KeepExecs(execs, mask), limit, window);
  }

  /** Distinct stamps are needed: two calls with the same stamp share one entry, so both
      pass a limit of 1. */
  lemma EqualStampsCollapse(window: nat)
    ensures var call := Exec("k", 0, 0, true);
            && SequentialRun([call, call], 1, window)
            && !Ordered([call, call])
  {
    var call := Exec("k", 0, 0, true);
    var both := [call, call];
    assert both[..1] == [call] && [call][..0] == [];
    assert Unpruned(map[], "k", 0, 0, window) + {0} == {0};
    assert SequentialSets([], window) == map[];
    var one := map["k" := ZSet({0}, window + TTL_MARGIN)];
    assert SequentialSets([call], window) == one;
    assert Unpruned(one, "k", 0, 0, window) + {0} == {0};
    assert Follows([call], call, 1, window);
    assert Follows([], call, 1, window);
    assert SequentialRun([call], 1, window);
    assert !Precedes(both[0], both[1]);
  }

  /** The margin is what keeps expiry invisible, and no smaller one would: with a pipeline
      11 seconds under way, two calls 4 seconds apart both pass a limit of 1 per 5 seconds. */
  lemma LatencyBeyondTheMargin()
    ensures var first, second := Exec("k", 0, 0, true), Exec("k", 4, 15, true);
            && SequentialRun([first, second], 1, 5)
            && !Ordered([first, second])
            && second.server - second.at == TTL_MARGIN + 1
            && Between([first.at, second.at], -1, 4) == [0, 4]
  {
    var first, second := Exec("k", 0, 0, true), Exec("k", 4, 15, true);
    var both := [first, second];
    assert both[..0] == [] && both[..1] == [first] && [first][..0] == [];
    assert Unpruned(map[], "k", 0, 0, 5) == {};
    assert SequentialSets([], 5) == map[];
    assert Live(map[], "k", 0) == {};
    assert Unpruned(map[], "k", 0, 0, 5) + {0} == {0};
    assert SequentialSets([first], 5) == map["k" := ZSet({0}, 15)];
    assert Unpruned(map["k" := ZSet({0}, 15)], "k", 4, 15, 5) == {};
    assert [0, 4][..1] == [0] && [0][..0] == [];
  }

  /** Nor is it the time under way alone that counts: the first client's clock is 5 seconds ahead
      of the server's and the second call 6 under way, so both pass a limit of 1 per 5 seconds. */
  lemma SkewBeyondTheMargin()
    ensures var first, second := Exec("k", 100, 95, true), Exec("k", 104, 110, true);
            && SequentialRun([first, second], 1, 5)
            && !Ordered([first, second])
            && Delay(second) - Delay(first) == TTL_MARGIN + 1
            && Between([first.at, second.at], 99, 104) == [100, 104]
  {
    var first, second := Exec("k", 100, 95, true), Exec("k", 104, 110, true);
    var both := [first, second];
    assert both[..0] == [] && both[..1] == [first] && [first][..0] == [];
    assert SequentialSets([], 5) == map[];
    assert Unpruned(map[], "k", 100, 95, 5) + {100} == {100};
    assert SequentialSets([first], 5) == map["k" := ZSet({100}, 110)];
    assert Unpruned(map["k" := ZSet({100}, 110)], "k", 104, 110, 5) == {};
    assert [100, 104][..1] == [100] && [100][..0] == [];
    assert !Precedes(both[0], both[1]);
  }

  /** What one finished call adds to a sequential run. */
  lemma CallStep(execs: seq<Exec>, e: Exec, limit: int, window: int)
    requires SequentialRun(execs, limit, window) && Follows(execs, e, limit, window)
    ensures SequentialRun(execs + [e], limit, window)
    ensures SequentialSets(execs + [e], window) ==
            var added := AfterPipeline(SequentialSets(execs, window), e.key, e.at, e.server, window);
            if e.allowed then added else AfterRemove(added, e.key, e.at)
    ensures Ordered(execs + [e]) ==> (e.allowed <==> |Recent(Admitted(ToCalls(execs), e.key), e.at - window)| < limit)
  {
    SequentialSnoc(execs, e, limit, window);
    assert (execs + [e])[..|execs|] == execs;
    if Ordered(execs + [e]) { SequentialStepVerdict(execs, e, limit, window); }
  }

  // ---- The classes ----

  /** The server: one command at a time; `server` is its clock at the command. */
  class Redis {
    var sets: Keyspace
    /** The finished calls of all clients together. */
    ghost var execs: seq<Exec>

    constructor ()
      ensures sets == map[] && execs == []
    {
      sets, execs := map[], [];
    }

    /** MULTI/EXEC of zremrangebyscore, zadd, zcard, expire. */
    method ExecutePipeline(key: string, at: int, server: int, window: int) returns (count: nat)
      modifies this`sets
      ensures count == PipelineCount(old(sets), key, at, server, window)
      ensures sets == AfterPipeline(old(sets), key, at, server, window)
    {
      var live := Live(sets, key, server);
      var members := set t | t in live && !(0 <= t <= at - window);
      members := members + {at};
      count := |members|;
      sets := sets[key := ZSet(members, server + window + TTL_MARGIN)];
    }

    method ZRem(key: string, at: int)
      modifies this`sets
      ensures sets == AfterRemove(old(sets), key, at)
    {
      if key in sets {
        sets := sets[key := ZSet(sets[key].members - {at}, sets[key].deadline)];
      }
    }
  }

  /** One client of the server; others with the same limits may share it, and its keys. */
  class RedisSlidingWindowLimiter {
    const redis: Redis
    const maxRequests: int
    const windowSeconds: int

    ghost predicate Valid()
      reads redis
    {
      && redis.sets == SequentialSets(redis.execs, windowSeconds)
      && SequentialRun(redis.execs, maxRequests, windowSeconds)
    }

    constructor (redis: Redis, maxRequests: int, windowSeconds: int)
      ensures this.redis == redis && this.maxRequests == maxRequests && this.windowSeconds == windowSeconds
    {
      this.redis, this.maxRequests, this.windowSeconds := redis, maxRequests, windowSeconds;
    }

    /** Without a connection every call is let in, and none is recorded. */
    method IsAllowed(key: string, now: int, server: int, connected: bool) returns (allowed: bool)
      requires Valid()
      modifies redis
      ensures Valid()
      ensures !connected ==> allowed && redis.sets == old(redis.sets) && redis.execs == old(redis.execs)
      ensures connected ==> redis.execs == old(redis.execs) + [Exec(key, now, server, allowed)]
      ensures connected && Ordered(redis.execs) ==>
                (allowed <==> |Recent(Admitted(ToCalls(old(redis.execs)), key), now - windowSeconds)| < maxRequests)
    {
      if !connected { return true; }
      ghost var before := redis.execs;
      var count := redis.ExecutePipeline(key, now, server, windowSeconds);
      if count > maxRequests {
        redis.ZRem(key, now);
        allowed := false;
      } else {
        allowed := true;
      }
      redis.execs := before + [Exec(key, now, server, allowed)];
      CallStep(before, Exec(key, now, server, allowed), maxRequests, windowSeconds);
    }
  }
}
