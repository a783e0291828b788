/** The yardstick both rate limiters are measured against: the complete history of
    calls, never pruned, together with what the sliding-window rule says about it. */
module SlidingWindow {
  import opened Basics

  /** One call of `is_allowed` with its verdict, or one `reset`. */
  datatype Event = Call(key: string, at: int, allowed: bool) | Reset(key: string)

  /** The stamps strictly later than `lo`, in order. */
  function Recent(stamps: seq<int>, lo: int): seq<int> {
    if stamps == [] then [] else
      var rest := Recent(stamps[..|stamps| - 1], lo);
      if stamps[|stamps| - 1] > lo then rest + [stamps[|stamps| - 1]] else rest
  }

  /** The stamps in the half-open interval (lo, hi]. */
  function Between(stamps: seq<int>, lo: int, hi: int): seq<int> {
    if stamps == [] then [] else
      var rest := Between(stamps[..|stamps| - 1], lo, hi);
      if lo < stamps[|stamps| - 1] <= hi then rest + [stamps[|stamps| - 1]] else rest
  }

  /** Every admission of `key` since its last reset, oldest first: the full history. */
  function Admitted(h: seq<Event>, key: string): seq<int> {
    if h == [] then [] else
      var rest := Admitted(h[..|h| - 1], key);
      match h[|h| - 1]
      case Reset(k) => if k == key then [] else rest
      case Call(k, at, allowed) => if k == key && allowed then rest + [at] else rest
  }

  /** The clock never runs backwards between two calls on the same key. */
  ghost predicate Monotone(h: seq<Event>) {
    forall i, j :: 0 <= i < j < |h| && h[i].Call? && h[j].Call? && h[i].key == h[j].key ==> h[i].at <= h[j].at
  }

  /** No call is admitted on top of `limit` admissions within its own window. */
  ghost predicate Throttled(h: seq<Event>, limit: int, window: int) {
    h != [] ==>
      var init, e := h[..|h| - 1], h[|h| - 1];
      && Throttled(init, limit, window)
      && (e.Call? && e.allowed ==> |Recent(Admitted(init, e.key), e.at - window)| < limit)
  }

  /** Every verdict, of either kind, is the one the sliding-window rule gives on the full history. */
  ghost predicate Ideal(h: seq<Event>, limit: int, window: int) {
    h != [] ==>
      var init, e := h[..|h| - 1], h[|h| - 1];
      && Ideal(init, limit, window)
      && (e.Call? ==> (e.allowed <==> |Recent(Admitted(init, e.key), e.at - window)| < limit))
  }

  // ---- Filtering stamps ----

  lemma RecentSnoc(s: seq<int>, x: int, lo: int)
    ensures Recent(s + [x], lo) == if x > lo then Recent(s, lo) + [x] else Recent(s, lo)
  {
    assert (s + [x])[..|s|] == s;
  }

  lemma BetweenSnoc(s: seq<int>, x: int, lo: int, hi: int)
    ensures Between(s + [x], lo, hi) == if lo < x <= hi then Between(s, lo, hi) + [x] else Between(s, lo, hi)
  {
    assert (s + [x])[..|s|] == s;
  }

  lemma AdmittedSnoc(h: seq<Event>, e: Event, key: string)
    ensures Admitted(h + [e], key) ==
            if e.key != key then Admitted(h, key)
            else if e.Reset? then []
            else if e.allowed then Admitted(h, key) + [e.at]
            else Admitted(h, key)
  {
    assert (h + [e])[..|h|] == h;
  }

  lemma IdealSnoc(h: seq<Event>, e: Event, limit: int, window: int)
    ensures Ideal(h + [e], limit, window) <==>
            && Ideal(h, limit, window)
            && (e.Call? ==> (e.allowed <==> |Recent(Admitted(h, e.key), e.at - window)| < limit))
  {
    assert (h + [e])[..|h|] == h;
  }

  lemma {:induction false} RecentTwice(s: seq<int>, a: int, b: int)
    ensures Recent(Recent(s, a), b) == Recent(s, Max(a, b))
  {
    if s != [] {
      var init, x := s[..|s| - 1], s[|s| - 1];
      RecentTwice(init, a, b);
      RecentSnoc(Recent(init, a), x, b);
    }
  }

  lemma {:induction false} BetweenEmpty(s: seq<int>, lo: int, hi: int)
    requires hi <= lo
    ensures Between(s, lo, hi) == []
  {
    if s != [] { BetweenEmpty(s[..|s| - 1], lo, hi); }
  }

  lemma {:induction false} BetweenSplit(s: seq<int>, lo: int, mid: int, hi: int)
    requires lo <= mid <= hi
    ensures |Between(s, lo, hi)| == |Between(s, lo, mid)| + |Between(s, mid, hi)|
  {
    if s != [] { BetweenSplit(s[..|s| - 1], lo, mid, hi); }
  }

  lemma {:induction false} BetweenAtMostRecent(s: seq<int>, lo: int, hi: int, cut: int)
    requires cut <= lo
    ensures |Between(s, lo, hi)| <= |Recent(s, cut)|
  {
    if s != [] { BetweenAtMostRecent(s[..|s| - 1], lo, hi, cut); }
  }

  // ---- What throttling buys ----

  lemma {:induction false} IdealIsThrottled(h: seq<Event>, limit: int, window: int)
    requires Ideal(h, limit, window)
    ensures Throttled(h, limit, window)
  {
    if h != [] { IdealIsThrottled(h[..|h| - 1], limit, window); }
  }

  /** At most `limit` admissions in any one window (lo, lo + window]. */
  lemma {:induction false} OneWindowBound(h: seq<Event>, key: string, lo: int, limit: int, window: int)
    requires Throttled(h, limit, window)
    ensures |Between(Admitted(h, key), lo, lo + window)| <= Max(0, limit)
  {
    if h != [] {
      var g, e := h[..|h| - 1], h[|h| - 1];
      OneWindowBound(g, key, lo, limit, window);
      if e.Call? && e.key == key && e.allowed {
        assert (Admitted(g, key) + [e.at])[..|Admitted(g, key)|] == Admitted(g, key);
        if lo < e.at <= lo + window {
          BetweenAtMostRecent(Admitted(g, key), lo, lo + window, e.at - window);
        }
      }
    }
  }

  lemma OneMoreWindow(n: nat, window: int)
    ensures n * window + window == (n + 1) * window
    ensures window >= 0 ==> n * window >= 0
    ensures window <= 0 ==> n * window <= 0
  {
  }

  /** At most `n * limit` admissions in any n consecutive windows (lo, lo + n * window]. */
  lemma {:induction false} WindowBound(h: seq<Event>, key: string, lo: int, n: nat, limit: int, window: int)
    requires Throttled(h, limit, window)
    ensures |Between(Admitted(h, key), lo, lo + n * window)| <= n * Max(0, limit)
  {
    OneMoreWindow(n, window);
    OneMoreWindow(n, Max(0, limit));
    if n == 0 || window <= 0 {
      BetweenEmpty(Admitted(h, key), lo, lo + n * window);
    } else {
      OneMoreWindow(n - 1, window);
      OneMoreWindow(n - 1, Max(0, limit));
      var mid := lo + (n - 1) * window;
      WindowBound(h, key, lo, n - 1, limit, window);
      OneWindowBound(h, key, mid, limit, window);
      BetweenSplit(Admitted(h, key), lo, mid, mid + window);
    }
  }
}
