/** The in-memory limiter of backend/app/middleware/rate_limit.py: a dictionary of pruned
    stamp lists, proved against the full history of SlidingWindow. */
module MemoryLimiter {
  import opened Basics
  import opened SlidingWindow

  /** The list the dictionary holds for `key` after the calls of `h`. Every call on the key
      prunes the list, whatever its verdict. */
  function Stored(h: seq<Event>, key: string, window: int): seq<int> {
    if h == [] then [] else
      var rest := Stored(h[..|h| - 1], key, window);
      match h[|h| - 1]
      case Reset(k) => if k == key then [] else rest
      case Call(k, at, allowed) =>
        if k != key then rest
        else if allowed then Recent(rest, at - window) + [at]
        else Recent(rest, at - window)
  }

  predicate Decide(h: seq<Event>, key: string, at: int, limit: int, window: int) {
    |Recent(Stored(h, key, window), at - window)| < limit
  }

  /** The histories the limiter can produce. */
  ghost predicate IsRun(h: seq<Event>, limit: int, window: int) {
    h != [] ==>
      var init, e := h[..|h| - 1], h[|h| - 1];
      && IsRun(init, limit, window)
      && (e.Call? ==> (e.allowed <==> Decide(init, e.key, e.at, limit, window)))
  }

  class SlidingWindowRateLimiter {
    const maxRequests: int
    const windowSeconds: int
    var requests: map<string, seq<int>>
    ghost var history: seq<Event>

    ghost predicate Valid()
      reads this
    {
      && IsRun(history, maxRequests, windowSeconds)
      && forall key :: Bucket(key) == Stored(history, key, windowSeconds)
    }

    /** `defaultdict(list)`: a missing key reads as the empty list. */
    function Bucket(key: string): seq<int>
      reads this
    {
      if key in requests then requests[key] else []
    }

    constructor (maxRequests: int, windowSeconds: int)
      ensures Valid() && history == []
      ensures this.maxRequests == maxRequests && this.windowSeconds == windowSeconds
    {
      this.maxRequests, this.windowSeconds := maxRequests, windowSeconds;
      requests, history := map[], [];
    }

    /** Admits the call exactly when the key's remembered admissions leave room; on a clock
        that does not run backwards these are all admissions in (now - window, now]. */
    method IsAllowed(key: string, now: int) returns (allowed: bool)
      requires Valid()
      modifies this
      ensures Valid() && history == old(history) + [Call(key, now, allowed)]
      ensures allowed <==> |Remembered(old(history), key, windowSeconds, now - windowSeconds)| < maxRequests
      ensures Monotone(history) ==>
                (allowed <==> |Recent(Admitted(old(history), key), now - windowSeconds)| < maxRequests)
      ensures forall k :: k != key ==> Bucket(k) == old(Bucket(k))
    {
      ghost var h := history;
      var windowStart := now - windowSeconds;
      var stamps := Recent(Bucket(key), windowStart);
      requests := requests[key := stamps];
      if |stamps| >= maxRequests {
        allowed := false;
      } else {
        requests := requests[key := stamps + [now]];
        allowed := true;
      }
      history := h + [Call(key, now, allowed)];
      CallStep(h, key, now, allowed, maxRequests, windowSeconds);
    }

    /** Forgets the key and no other. */
    method ResetKey(key: string)
      requires Valid()
      modifies this
      ensures Valid() && history == old(history) + [Reset(key)]
      ensures Bucket(key) == [] && forall k :: k != key ==> Bucket(k) == old(Bucket(k))
    {
      ghost var h := history;
      requests := requests - {key};
      history := h + [Reset(key)];
      StoredAfter(h, Reset(key), windowSeconds);
      RunSnoc(h, Reset(key), maxRequests, windowSeconds);
    }
  }

  lemma StoredSnoc(h: seq<Event>, e: Event, key: string, window: int)
    ensures Stored(h + [e], key, window) ==
            if e.key != key then Stored(h, key, window)
            else if e.Reset? then []
            else if e.allowed then Recent(Stored(h, key, window), e.at - window) + [e.at]
            else Recent(Stored(h, key, window), e.at - window)
  {
    assert (h + [e])[..|h|] == h;
  }

  lemma StoredAfter(h: seq<Event>, e: Event, window: int)
    ensures forall k :: k != e.key ==> Stored(h + [e], k, window) == Stored(h, k, window)
    ensures Stored(h + [e], e.key, window) ==
            if e.Reset? then []
            else if e.allowed then Recent(Stored(h, e.key, window), e.at - window) + [e.at]
            else Recent(Stored(h, e.key, window), e.at - window)
  {
    forall k { StoredSnoc(h, e, k, window); }
  }

  lemma RunSnoc(h: seq<Event>, e: Event, limit: int, window: int)
    ensures IsRun(h + [e], limit, window) <==>
            && IsRun(h, limit, window)
            && (e.Call? ==> (e.allowed <==> Decide(h, e.key, e.at, limit, window)))
  {
    assert (h + [e])[..|h|] == h;
  }

  /** What one call adds to a run. */
  lemma CallStep(h: seq<Event>, key: string, now: int, allowed: bool, limit: int, window: int)
    requires IsRun(h, limit, window) && (allowed <==> |Recent(Stored(h, key, window), now - window)| < limit)
    ensures var h' := h + [Call(key, now, allowed)];
            && IsRun(h', limit, window)
            && (forall k :: k != key ==> Stored(h', k, window) == Stored(h, k, window))
            && Stored(h', key, window) == Recent(Stored(h, key, window), now - window) + (if allowed then [now] else [])
            && (allowed <==> |Remembered(h, key, window, now - window)| < limit)
            && (Monotone(h') ==> (allowed <==> |Recent(Admitted(h, key), now - window)| < limit))
  {
    StoredAfter(h, Call(key, now, allowed), window);
    RunSnoc(h, Call(key, now, allowed), limit, window);
    StepVerdict(h, key, now, allowed, limit, window);
  }

  lemma StepVerdict(h: seq<Event>, key: string, now: int, allowed: bool, limit: int, window: int)
    requires allowed <==> Decide(h, key, now, limit, window)
    ensures allowed <==> |Remembered(h, key, window, now - window)| < limit
    ensures Monotone(h + [Call(key, now, allowed)]) ==>
              (allowed <==> |Recent(Admitted(h, key), now - window)| < limit)
  {
    StoredIsRemembered(h, key, window, now - window);
    var g := h + [Call(key, now, allowed)];
    if Monotone(g) {
      assert g[|h|] == Call(key, now, allowed);
      assert forall i :: 0 <= i < |h| ==> g[i] == h[i];
      RememberedIsFullHistory(h, key, window, now - window);
    }
  }

  // ---- What pruning forgets ----

  /** The admissions of `key` since its last reset that are later than `lo` and that no call
      made since has pushed out of its window. Read from the newest event backwards. */
  function Remembered(h: seq<Event>, key: string, window: int, lo: int): seq<int> {
    if h == [] then [] else
      match h[|h| - 1]
      case Reset(k) => if k == key then [] else Remembered(h[..|h| - 1], key, window, lo)
      case Call(k, at, allowed) =>
        if k != key then Remembered(h[..|h| - 1], key, window, lo)
        else
          var older := Remembered(h[..|h| - 1], key, window, Max(lo, at - window));
          if allowed && at > lo then older + [at] else older
  }

  lemma RememberedSnoc(g: seq<Event>, e: Event, key: string, window: int, lo: int)
    ensures Remembered(g + [e], key, window, lo) ==
            if e.key != key then Remembered(g, key, window, lo)
            else if e.Reset? then []
            else Remembered(g, key, window, Max(lo, e.at - window)) + (if e.allowed && e.at > lo then [e.at] else [])
  {
    assert (g + [e])[..|g|] == g;
  }

  lemma StepIsRemembered(g: seq<Event>, e: Event, key: string, window: int, lo: int)
    requires Recent(Stored(g, key, window), lo) == Remembered(g, key, window, lo)
    requires e.Call? ==>
               var bound := Max(lo, e.at - window);
               Recent(Stored(g, key, window), bound) == Remembered(g, key, window, bound)
    ensures Recent(Stored(g + [e], key, window), lo) == Remembered(g + [e], key, window, lo)
  {
    StoredSnoc(g, e, key, window);
    RememberedSnoc(g, e, key, window, lo);
    if e.Call? { RecentOfPruned(Stored(g, key, window), e.at, window, lo); }
  }

  /** With no assumption on the clock: the pruned list holds just what is remembered. */
  lemma {:induction false} StoredIsRemembered(h: seq<Event>, key: string, window: int, lo: int)
    ensures Recent(Stored(h, key, window), lo) == Remembered(h, key, window, lo)
  {
    if h != [] {
      var g, e := h[..|h| - 1], h[|h| - 1];
      assert h == g + [e];
      StoredIsRemembered(g, key, window, lo);
      if e.Call? { StoredIsRemembered(g, key, window, Max(lo, e.at - window)); }
      StepIsRemembered(g, e, key, window, lo);
    }
  }

  /** Pruning and then filtering is filtering by the later bound. */
  lemma RecentOfPruned(stored: seq<int>, at: int, window: int, lo: int)
    ensures Recent(Recent(stored, at - window), lo) == Recent(stored, Max(lo, at - window))
    ensures Recent(Recent(stored, at - window) + [at], lo) ==
            if at > lo then Recent(stored, Max(lo, at - window)) + [at] else Recent(stored, Max(lo, at - window))
  {
    RecentTwice(stored, at - window, lo);
    RecentSnoc(Recent(stored, at - window), at, lo);
  }

  /** On a clock that does not run backwards nothing that still counts is ever forgotten. */
  lemma {:induction false} RememberedIsFullHistory(h: seq<Event>, key: string, window: int, lo: int)
    requires Monotone(h)
    requires forall i :: 0 <= i < |h| && h[i].Call? && h[i].key == key ==> h[i].at - window <= lo
    ensures Remembered(h, key, window, lo) == Recent(Admitted(h, key), lo)
  {
    if h != [] {
      var g, e := h[..|h| - 1], h[|h| - 1];
      assert forall i :: 0 <= i < |g| ==> g[i] == h[i];
      RememberedIsFullHistory(g, key, window, lo);
      if e.Call? && e.key == key && e.allowed { RecentSnoc(Admitted(g, key), e.at, lo); }
    }
  }

  /** Four calls on one key at times 5, 6, 100 and 7. */
  function BackwardRun(n: nat): seq<Event>
    requires n <= 4
  {
    if n == 0 then [] else
      var at := if n == 1 then 5 else if n == 2 then 6 else if n == 3 then 100 else 7;
      BackwardRun(n - 1) + [Call("k", at, true)]
  }

  lemma BackwardRunIsRun()
    ensures IsRun(BackwardRun(4), 2, 10)
  {
    var none: seq<int> := [];
    StoredSnoc(BackwardRun(0), Call("k", 5, true), "k", 10);
    StoredSnoc(BackwardRun(1), Call("k", 6, true), "k", 10);
    StoredSnoc(BackwardRun(2), Call("k", 100, true), "k", 10);
    RecentSnoc(none, 5, -4); RecentSnoc(none, 5, 90); RecentSnoc(none + [5], 6, 90); RecentSnoc(none, 100, -3);
    RunSnoc(BackwardRun(0), Call("k", 5, true), 2, 10);
    RunSnoc(BackwardRun(1), Call("k", 6, true), 2, 10);
    RunSnoc(BackwardRun(2), Call("k", 100, true), 2, 10);
    RunSnoc(BackwardRun(3), Call("k", 7, true), 2, 10);
  }

  /** The clock assumption cannot be dropped: the call at 100 prunes the admissions at 5 and
      6, so once the clock is back at 7 a third admission is let into their window. */
  lemma BackwardClockForgets()
    ensures IsRun(BackwardRun(4), 2, 10)
    ensures |Between(Admitted(BackwardRun(4), "k"), 0, 10)| == 3
  {
    var none: seq<int> := [];
    BackwardRunIsRun();
    BackwardAdmissions();
    BetweenSnoc(none, 5, 0, 10);
    BetweenSnoc(none + [5], 6, 0, 10);
    BetweenSnoc(none + [5] + [6], 100, 0, 10);
    BetweenSnoc(none + [5] + [6] + [100], 7, 0, 10);
  }

  lemma BackwardAdmissions()
    ensures var none: seq<int> := []; Admitted(BackwardRun(4), "k") == none + [5] + [6] + [100] + [7]
  {
    AdmittedSnoc(BackwardRun(0), Call("k", 5, true), "k");
    AdmittedSnoc(BackwardRun(1), Call("k", 6, true), "k");
    AdmittedSnoc(BackwardRun(2), Call("k", 100, true), "k");
    AdmittedSnoc(BackwardRun(3), Call("k", 7, true), "k");
  }

  // ---- Whole runs ----

  /** The pruned lists decide exactly as the full history does, and conversely: the
      limiter's runs are the runs of the sliding-window rule. */
  lemma {:induction false} RefinesFullHistory(h: seq<Event>, limit: int, window: int)
    requires Monotone(h)
    ensures IsRun(h, limit, window) <==> Ideal(h, limit, window)
  {
    if h != [] {
      var init, e := h[..|h| - 1], h[|h| - 1];
      RefinesFullHistory(init, limit, window);
      if e.Call? {
        StoredIsRemembered(init, e.key, window, e.at - window);
        RememberedIsFullHistory(init, e.key, window, e.at - window);
      }
    }
  }

  /** No n consecutive windows ever hold more than n * limit admissions of one key. */
  lemma AdmissionBound(h: seq<Event>, key: string, lo: int, n: nat, limit: int, window: int)
    requires IsRun(h, limit, window) && Monotone(h)
    ensures |Between(Admitted(h, key), lo, lo + n * window)| <= n * Max(0, limit)
  {
    RefinesFullHistory(h, limit, window);
    IdealIsThrottled(h, limit, window);
    WindowBound(h, key, lo, n, limit, window);
  }

  /** The events of `h` that the mask keeps. */
  function Keep(h: seq<Event>, mask: seq<bool>): seq<Event>
    requires |mask| == |h|
  {
    if h == [] then [] else
      var rest := Keep(h[..|h| - 1], mask[..|h| - 1]);
      if mask[|h| - 1] then rest + [h[|h| - 1]] else rest
  }

  ghost predicate DropsOnlyDenials(h: seq<Event>, mask: seq<bool>) {
    |mask| == |h| && forall i :: 0 <= i < |h| && !mask[i] ==> h[i].Call? && !h[i].allowed
  }

  lemma {:induction false} KeepLosesNoAdmission(h: seq<Event>, mask: seq<bool>, key: string)
    requires DropsOnlyDenials(h, mask)
    ensures Admitted(Keep(h, mask), key) == Admitted(h, key)
  {
    if h != [] {
      var n := |h| - 1;
      KeepLosesNoAdmission(h[..n], mask[..n], key);
      var g := Keep(h[..n], mask[..n]);
      if mask[n] { assert (g + [h[n]])[..|g|] == g; }
    }
  }

  lemma {:induction false} KeepTakesEvents(h: seq<Event>, mask: seq<bool>)
    requires |mask| == |h|
    ensures forall e :: e in Keep(h, mask) ==> e in h
  {
    if h != [] {
      KeepTakesEvents(h[..|h| - 1], mask[..|h| - 1]);
      assert forall e :: e in h[..|h| - 1] ==> e in h;
      assert h[|h| - 1] in h;
    }
  }

  lemma {:induction false} KeepIsMonotone(h: seq<Event>, mask: seq<bool>)
    requires |mask| == |h| && Monotone(h)
    ensures Monotone(Keep(h, mask))
  {
    if h != [] {
      var g, e := h[..|h| - 1], h[|h| - 1];
      var k := Keep(g, mask[..|h| - 1]);
      KeepIsMonotone(g, mask[..|h| - 1]);
      KeepTakesEvents(g, mask[..|h| - 1]);
      forall d | d in k && d.Call? && e.Call? && d.key == e.key ensures d.at <= e.at {
        assert d in g;
        var i :| 0 <= i < |g| && g[i] == d;
        assert h[i] == d;
      }
      MonotoneSnoc(k, e);
    }
  }

  lemma {:induction false} KeepIsIdeal(h: seq<Event>, mask: seq<bool>, limit: int, window: int)
    requires Ideal(h, limit, window) && DropsOnlyDenials(h, mask)
    ensures Ideal(Keep(h, mask), limit, window)
  {
    if h != [] {
      var g, e := h[..|h| - 1], h[|h| - 1];
      IdealSnoc(g, e, limit, window);
      assert h == g + [e];
      KeepIsIdeal(g, mask[..|h| - 1], limit, window);
      KeepLosesNoAdmission(g, mask[..|h| - 1], e.key);
      IdealSnoc(Keep(g, mask[..|h| - 1]), e, limit, window);
    }
  }

  /** Calls that were turned away leave no trace: delete any of them from a run and every
      remaining call still gets the verdict it got. */
  lemma DeniedCallsAreFree(h: seq<Event>, mask: seq<bool>, limit: int, window: int)
    requires IsRun(h, limit, window) && Monotone(h) && DropsOnlyDenials(h, mask)
    ensures IsRun(Keep(h, mask), limit, window)
  {
    RefinesFullHistory(h, limit, window);
    KeepIsIdeal(h, mask, limit, window);
    KeepIsMonotone(h, mask);
    RefinesFullHistory(Keep(h, mask), limit, window);
  }

  lemma MonotoneSnoc(h: seq<Event>, e: Event)
    requires Monotone(h)
    requires forall d :: d in h && d.Call? && e.Call? && d.key == e.key ==> d.at <= e.at
    ensures Monotone(h + [e])
  {
    var g := h + [e];
    forall i, j | 0 <= i < j < |g| && g[i].Call? && g[j].Call? && g[i].key == g[j].key ensures g[i].at <= g[j].at {
      assert g[i] in h;
    }
  }

  /** The events of one key. */
  function OnlyKey(h: seq<Event>, key: string): seq<Event> {
    if h == [] then [] else
      var rest := OnlyKey(h[..|h| - 1], key);
      if h[|h| - 1].key == key then rest + [h[|h| - 1]] else rest
  }

  lemma {:induction false} StoredIgnoresOtherKeys(h: seq<Event>, key: string, window: int)
    ensures Stored(OnlyKey(h, key), key, window) == Stored(h, key, window)
  {
    if h != [] {
      var g, e := h[..|h| - 1], h[|h| - 1];
      StoredIgnoresOtherKeys(g, key, window);
      if e.key == key { assert (OnlyKey(g, key) + [e])[..|OnlyKey(g, key)|] == OnlyKey(g, key); }
    }
  }

  ghost predicate EachKeyRuns(h: seq<Event>, limit: int, window: int) {
    forall key :: IsRun(OnlyKey(h, key), limit, window)
  }

  /** Keys do not affect each other, on any clock: a history is a run of the limiter exactly
      when each key's own events are one. */
  lemma {:induction false} KeysAreIndependent(h: seq<Event>, limit: int, window: int)
    ensures IsRun(h, limit, window) <==> EachKeyRuns(h, limit, window)
  {
    if h != [] {
      var g, e := h[..|h| - 1], h[|h| - 1];
      assert h == g + [e];
      KeysAreIndependent(g, limit, window);
      RunSnoc(g, e, limit, window);
      RunSnoc(OnlyKey(g, e.key), e, limit, window);
      StoredIgnoresOtherKeys(g, e.key, window);
      if IsRun(h, limit, window) {
        forall key ensures IsRun(OnlyKey(h, key), limit, window) {
          assert IsRun(OnlyKey(g, key), limit, window);
        }
      }
      if EachKeyRuns(h, limit, window) {
        assert IsRun(OnlyKey(h, e.key), limit, window);
        assert OnlyKey(h, e.key) == OnlyKey(g, e.key) + [e];
        forall key ensures IsRun(OnlyKey(g, key), limit, window) {
          assert IsRun(OnlyKey(h, key), limit, window);
        }
        assert IsRun(g, limit, window);
      }
    } else {
      assert forall key :: OnlyKey(h, key) == [];
    }
  }
}
