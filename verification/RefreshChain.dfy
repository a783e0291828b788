/** Login, refresh and logout of backend/app/api/v1/auth.py as a protocol. One event loop runs
    the handlers, so the code between two awaits is one step: refresh decodes and revokes in one
    step, waits for the database, and mints in another. Other requests run in between. */
module RefreshChain {
  import opened Basics
  import opened Revocation

  /** A minted token; its position in the issue log is its `jti`. `chain` numbers the login it
      descends from, which the code itself does not record. */
  datatype Issued = Issued(chain: nat, claims: Claims)

  datatype Waiting = Waiting(chain: nat, subject: nat)

  datatype State = State(
    now: int,
    ops: seq<Op>,
    tokens: seq<Issued>,
    pending: map<nat, Waiting>,
    exchanged: seq<Jti>,
    chains: nat,
    requests: nat)

  datatype Config = Config(accessTtl: int, refreshTtl: int)

  datatype Step =
    | Login(subject: nat, at: int)
    | BeginRefresh(jti: Jti, t1: int, t2: int)
    | FinishRefresh(request: nat, active: bool, at: int)
    | Logout(jti: Jti, t1: int, t2: int)
    | Check(jti: Jti, t1: int, t2: int)
    | Clean(at: int)

  function Start(now: int): State {
    State(now, [], [], map[], [], 0, 0)
  }

  function Mint(tokens: seq<Issued>, chain: nat, subject: nat, at: int, cfg: Config): seq<Issued> {
    tokens
    + [Issued(chain, Claims(Some(subject), Access, Some(at + cfg.accessTtl), Some(|tokens|)))]
    + [Issued(chain, Claims(Some(subject), Refresh, Some(at + cfg.refreshTtl), Some(|tokens| + 1)))]
  }

  /** `if jti and exp`: a claim that is absent, or an `exp` of zero, revokes nothing. */
  function RevokeOps(token: Claims): seq<Op> {
    if token.jti.Some? && token.exp.Some? && token.exp.value != 0
    then [Revoke(token.jti.value, token.exp.value)] else []
  }

  predicate IsDecode(step: Step) {
    step.BeginRefresh? || step.Logout? || step.Check?
  }

  ghost predicate Enabled(s: State, step: Step) {
    match step
    case Login(_, at) => s.now <= at
    case FinishRefresh(r, _, at) => r in s.pending && s.now <= at
    case Clean(at) => s.now <= at
    case BeginRefresh(j, t1, t2) => j < |s.tokens| && s.now <= t1 <= t2
    case Logout(j, t1, t2) => j < |s.tokens| && s.now <= t1 <= t2
    case Check(j, t1, t2) => j < |s.tokens| && s.now <= t1 <= t2
  }

  function Decoding(s: State, j: Jti, t1: int, t2: int): Decoded
    requires j < |s.tokens|
  {
    Decode(Stored(s.ops), s.tokens[j].claims, t1, t2)
  }

  predicate Exchanges(s: State, j: Jti, t1: int, t2: int)
    requires j < |s.tokens|
  {
    Decoding(s, j, t1, t2).Ok? && s.tokens[j].claims.kind == Refresh && s.tokens[j].claims.subject.Some?
  }

  function Apply(s: State, step: Step, cfg: Config): State
    requires IsDecode(step) ==> step.jti < |s.tokens|
    requires step.FinishRefresh? ==> step.request in s.pending
  {
    match step
    case Login(subject, at) =>
      s.(now := at, tokens := Mint(s.tokens, s.chains, subject, at, cfg), chains := s.chains + 1)
    case Clean(at) => s.(now := at, ops := s.ops + [Sweep(at)])
    case Check(j, t1, t2) => s.(now := t2, ops := s.ops + DecodeOps(s.tokens[j].claims, t1, t2))
    case Logout(j, t1, t2) =>
      var token := s.tokens[j].claims;
      var ops := s.ops + DecodeOps(token, t1, t2);
      s.(now := t2, ops := if Decoding(s, j, t1, t2).Ok? then ops + RevokeOps(token) else ops)
    case BeginRefresh(j, t1, t2) =>
      var token := s.tokens[j].claims;
      var ops := s.ops + DecodeOps(token, t1, t2);
      if Exchanges(s, j, t1, t2) then
        s.(now := t2, ops := ops + RevokeOps(token), exchanged := s.exchanged + [j],
           pending := s.pending[s.requests := Waiting(s.tokens[j].chain, token.subject.value)],
           requests := s.requests + 1)
      else s.(now := t2, ops := ops)
    case FinishRefresh(r, active, at) =>
      var w := s.pending[r];
      s.(now := at, pending := s.pending - {r},
         tokens := if active then Mint(s.tokens, w.chain, w.subject, at, cfg) else s.tokens)
  }

  /** Any interleaving of any number of requests, from a clock past the epoch. */
  ghost predicate IsTrace(steps: seq<Step>, states: seq<State>, cfg: Config) {
    && |states| == |steps| + 1
    && states[0].now >= 0 && states[0] == Start(states[0].now)
    && forall i :: 0 <= i < |steps| ==>
         Enabled(states[i], steps[i]) && states[i + 1] == Apply(states[i], steps[i], cfg)
  }

  /** A refresh presents a revoked refresh token that expires between the two clock readings. */
  ghost predicate Reuses(s: State, step: Step) {
    && step.BeginRefresh? && step.jti < |s.tokens| && s.tokens[step.jti].claims.kind == Refresh
    && step.jti in EverRevoked(s.ops)
    && Straddles(s.tokens[step.jti].claims, step.t1, step.t2)
  }

  /** Such a refresh, while the login it descends from still has a successor of the token. */
  ghost predicate Splits(s: State, step: Step) {
    && Reuses(s, step)
    && (LiveTokens(s, s.tokens[step.jti].chain) != {} || PendingMints(s, s.tokens[step.jti].chain) != {})
  }

  /** Such a refresh, of a token that was revoked by being exchanged. */
  ghost predicate Repeats(s: State, step: Step) {
    Reuses(s, step) && step.jti in s.exchanged
  }

  // ---- What every step keeps ----

  predicate WellMinted(t: Issued, j: nat, chains: nat) {
    && t.claims.jti == Some(j) && t.claims.exp.Some? && t.claims.subject.Some?
    && t.chain < chains
  }

  ghost predicate MintsOk(s: State) {
    && (forall j :: 0 <= j < |s.tokens| ==> WellMinted(s.tokens[j], j, s.chains))
    && (forall r :: r in s.pending ==> r < s.requests && s.pending[r].chain < s.chains)
  }

  ghost predicate StoreOk(s: State) {
    && 0 <= s.now && ClockBefore(s.ops, s.now)
    && (forall j :: j in EverRevoked(s.ops) ==>
          j < |s.tokens| && s.tokens[j].claims.exp == Some(EverRevoked(s.ops)[j]))
    && (forall j :: j in s.exchanged ==> j in EverRevoked(s.ops))
  }

  ghost predicate Grounded(s: State) {
    MintsOk(s) && StoreOk(s)
  }

  /** Refresh tokens of a login that were never revoked, expired or not. */
  predicate Live(s: State, j: int) {
    0 <= j < |s.tokens| && s.tokens[j].claims.kind == Refresh && j !in EverRevoked(s.ops)
  }

  ghost predicate OneHolder(s: State) {
    && (forall i, j :: Live(s, i) && Live(s, j) && s.tokens[i].chain == s.tokens[j].chain ==> i == j)
    && (forall i, r :: Live(s, i) && r in s.pending ==> s.tokens[i].chain != s.pending[r].chain)
    && (forall q, r :: q in s.pending && r in s.pending && s.pending[q].chain == s.pending[r].chain ==> q == r)
  }

  lemma DecodeOpsEffect(s: State, j: Jti, t1: int, t2: int)
    requires Grounded(s) && j < |s.tokens| && s.now <= t1 <= t2
    ensures var ops := s.ops + DecodeOps(s.tokens[j].claims, t1, t2);
            EverRevoked(ops) == EverRevoked(s.ops) && ClockBefore(ops, t2)
  {
    var token := s.tokens[j].claims;
    ClockLater(s.ops, s.now, t2);
    if Unexpired(token, t1) {
      OpSnoc(s.ops, LookUp(j, t2));
    } else {
      assert s.ops + [] == s.ops;
    }
  }

  lemma RevokeEffect(s: State, j: Jti, t1: int, t2: int)
    requires Grounded(s) && j < |s.tokens| && s.now <= t1 <= t2 && Decoding(s, j, t1, t2).Ok?
    ensures var token := s.tokens[j].claims;
            var ops := s.ops + DecodeOps(token, t1, t2) + RevokeOps(token);
            EverRevoked(ops) == EverRevoked(s.ops)[j := token.exp.value] && ClockBefore(ops, t2)
  {
    DecodeOpsEffect(s, j, t1, t2);
    var token := s.tokens[j].claims;
    OpSnoc(s.ops + DecodeOps(token, t1, t2), Revoke(j, token.exp.value));
  }

  /** An accepted token that was revoked before is one that expired between the two readings;
      and a revoked, straddling refresh token is always accepted. */
  lemma AcceptedAgainIffStraddling(s: State, j: Jti, t1: int, t2: int)
    requires Grounded(s) && j < |s.tokens| && s.now <= t1 <= t2 && j in EverRevoked(s.ops)
    ensures Decoding(s, j, t1, t2).Ok? <==> Straddles(s.tokens[j].claims, t1, t2)
  {
    ClockLater(s.ops, s.now, t1);
    DecodeAgreesUnlessStraddling(s.ops, s.tokens[j].claims, t1, t2);
  }

  lemma StepKeepsMints(s: State, step: Step, cfg: Config)
    requires MintsOk(s) && (IsDecode(step) ==> step.jti < |s.tokens|)
    requires step.FinishRefresh? ==> step.request in s.pending
    ensures MintsOk(Apply(s, step, cfg))
    ensures |s.tokens| <= |Apply(s, step, cfg).tokens|
    ensures Apply(s, step, cfg).tokens[..|s.tokens|] == s.tokens
  {
    var s' := Apply(s, step, cfg);
    forall j | 0 <= j < |s'.tokens| ensures WellMinted(s'.tokens[j], j, s'.chains) {
      if j < |s.tokens| { assert WellMinted(s.tokens[j], j, s.chains); }
    }
  }

  /** What any step does to the revocations: nothing, or one token revoked with its own expiry. */
  ghost predicate RevokesAtMost(s: State, s': State, j: Jti) {
    || EverRevoked(s'.ops) == EverRevoked(s.ops)
    || (j < |s.tokens| && s.tokens[j].claims.exp.Some?
        && EverRevoked(s'.ops) == EverRevoked(s.ops)[j := s.tokens[j].claims.exp.value])
  }

  lemma StoreOkExtends(s: State, s': State, j: Jti)
    requires StoreOk(s) && RevokesAtMost(s, s', j)
    requires |s.tokens| <= |s'.tokens| && s'.tokens[..|s.tokens|] == s.tokens
    requires s.now <= s'.now && ClockBefore(s'.ops, s'.now)
    requires s'.exchanged == s.exchanged || (s'.exchanged == s.exchanged + [j] && j in EverRevoked(s'.ops))
    ensures StoreOk(s')
    ensures forall k :: k in EverRevoked(s.ops) ==> k in EverRevoked(s'.ops)
  {
    forall k | k in EverRevoked(s'.ops)
      ensures k < |s'.tokens| && s'.tokens[k].claims.exp == Some(EverRevoked(s'.ops)[k])
    {
      assert s'.tokens[k] == s.tokens[k];
    }
  }

  lemma DecodeStepKeepsStore(s: State, step: Step, cfg: Config)
    requires Grounded(s) && Enabled(s, step) && IsDecode(step)
    ensures StoreOk(Apply(s, step, cfg)) && RevokesAtMost(s, Apply(s, step, cfg), step.jti)
    ensures forall j :: j in EverRevoked(s.ops) ==> j in EverRevoked(Apply(s, step, cfg).ops)
  {
    var s' := Apply(s, step, cfg);
    var j, t1, t2 := step.jti, step.t1, step.t2;
    assert s'.tokens == s.tokens && s'.now == t2;
    assert ClockBefore(s'.ops, t2) && RevokesAtMost(s, s', j)
        && (|s'.exchanged| > |s.exchanged| ==> j in EverRevoked(s'.ops)) by {
      assert WellMinted(s.tokens[j], j, s.chains);
      DecodeOpsEffect(s, j, t1, t2);
      if Decoding(s, j, t1, t2).Ok? { RevokeEffect(s, j, t1, t2); }
    }
    StoreOkExtends(s, s', j);
  }

  lemma StepKeepsStore(s: State, step: Step, cfg: Config)
    requires Grounded(s) && Enabled(s, step)
    ensures StoreOk(Apply(s, step, cfg))
    ensures forall j :: j in EverRevoked(s.ops) ==> j in EverRevoked(Apply(s, step, cfg).ops)
  {
    if IsDecode(step) {
      DecodeStepKeepsStore(s, step, cfg);
    } else {
      StepKeepsMints(s, step, cfg);
      var s' := Apply(s, step, cfg);
      ClockLater(s.ops, s.now, s'.now);
      if step.Clean? { OpSnoc(s.ops, Sweep(step.at)); }
      StoreOkExtends(s, s', 0);
    }
  }

  lemma StepIsGrounded(s: State, step: Step, cfg: Config)
    requires Grounded(s) && Enabled(s, step)
    ensures Grounded(Apply(s, step, cfg))
  {
    StepKeepsMints(s, step, cfg);
    StepKeepsStore(s, step, cfg);
  }

  /** A refresh token that exchanges was never revoked before, unless this step reuses it. */
  lemma ExchangesRevokedIffReuses(s: State, step: Step)
    requires Grounded(s) && Enabled(s, step) && step.BeginRefresh?
    ensures Exchanges(s, step.jti, step.t1, step.t2) && step.jti in EverRevoked(s.ops) <==> Reuses(s, step)
  {
    assert WellMinted(s.tokens[step.jti], step.jti, s.chains);
    if step.jti in EverRevoked(s.ops) { AcceptedAgainIffStraddling(s, step.jti, step.t1, step.t2); }
  }

  lemma StepKeepsOneHolder(s: State, step: Step, cfg: Config)
    requires Grounded(s) && Enabled(s, step) && OneHolder(s) && !Reuses(s, step)
    ensures OneHolder(Apply(s, step, cfg))
  {
    var s' := Apply(s, step, cfg);
    StepKeepsMints(s, step, cfg);
    StepKeepsStore(s, step, cfg);
    assert forall j :: 0 <= j < |s.tokens| ==> s'.tokens[j] == s.tokens[j];
    assert forall i :: Live(s', i) && i < |s.tokens| ==> Live(s, i);
    if step.BeginRefresh? && Exchanges(s, step.jti, step.t1, step.t2) {
      assert Live(s, step.jti) by { ExchangesRevokedIffReuses(s, step); }
      assert !Live(s', step.jti) by { RevokeEffect(s, step.jti, step.t1, step.t2); }
      BeginKeepsOneHolder(s, s', step.jti);
    } else if step.Login? || step.FinishRefresh? {
      MintKeepsOneHolder(s, s', step, cfg);
    }
  }

  /** A reuse changes nothing but adding one more refresh that waits to mint. */
  lemma ReuseAddsPending(s: State, step: Step, cfg: Config)
    requires Grounded(s) && Enabled(s, step) && Reuses(s, step)
    ensures var s' := Apply(s, step, cfg);
            && s'.tokens == s.tokens && (forall i :: Live(s', i) <==> Live(s, i))
            && s.requests !in s.pending && s.requests in s'.pending
            && s'.pending == s.pending[s.requests := s'.pending[s.requests]]
            && s'.pending[s.requests].chain == s.tokens[step.jti].chain
            && s'.exchanged == s.exchanged + [step.jti]
  {
    ExchangesRevokedIffReuses(s, step);
    RevokeEffect(s, step.jti, step.t1, step.t2);
  }

  /** Exactly when a step gives one login two holders: a revoked refresh token is reused while
      its login still has an unrevoked refresh token, or a refresh waiting to mint one. */
  lemma StepSplitsIff(s: State, step: Step, cfg: Config)
    requires Grounded(s) && Enabled(s, step) && OneHolder(s)
    ensures !OneHolder(Apply(s, step, cfg)) <==> Splits(s, step)
  {
    if !Reuses(s, step) {
      StepKeepsOneHolder(s, step, cfg);
    } else {
      ReuseAddsPending(s, step, cfg);
      SplitsWhenHeld(s, Apply(s, step, cfg), s.tokens[step.jti].chain);
    }
  }

  lemma SplitsWhenHeld(s: State, s': State, chain: nat)
    requires OneHolder(s) && s'.tokens == s.tokens && (forall i :: Live(s', i) <==> Live(s, i))
    requires s.requests !in s.pending && s.requests in s'.pending
    requires s'.pending == s.pending[s.requests := s'.pending[s.requests]]
    requires s'.pending[s.requests].chain == chain
    ensures OneHolder(s') <==> LiveTokens(s, chain) == {} && PendingMints(s, chain) == {}
  {
    if i :| i in LiveTokens(s, chain) {
      assert Live(s', i) && s'.tokens[i].chain == s'.pending[s.requests].chain;
    }
    if r :| r in PendingMints(s, chain) {
      assert r in s'.pending && s'.pending[r].chain == s'.pending[s.requests].chain;
    }
    if LiveTokens(s, chain) == {} && PendingMints(s, chain) == {} {
      assert forall i :: Live(s, i) ==> s.tokens[i].chain != chain by {
        assert forall i: Jti :: Live(s, i) && s.tokens[i].chain == chain ==> i in LiveTokens(s, chain);
      }
      assert forall r :: r in s.pending && s.pending[r].chain == chain ==> r in PendingMints(s, chain);
    }
  }

  lemma BeginKeepsOneHolder(s: State, s': State, j: Jti)
    requires OneHolder(s) && Live(s, j) && !Live(s', j) && MintsOk(s)
    requires s'.tokens == s.tokens && s'.pending.Keys == s.pending.Keys + {s.requests}
    requires s'.pending[s.requests].chain == s.tokens[j].chain
    requires forall r :: r in s.pending ==> s'.pending[r] == s.pending[r]
    requires forall i :: Live(s', i) ==> Live(s, i)
    ensures OneHolder(s')
  {
  }

  lemma MintKeepsOneHolder(s: State, s': State, step: Step, cfg: Config)
    requires Grounded(s) && Enabled(s, step) && OneHolder(s) && s' == Apply(s, step, cfg)
    requires step.Login? || step.FinishRefresh?
    requires forall i :: Live(s', i) && i < |s.tokens| ==> Live(s, i)
    ensures OneHolder(s')
  {
    var chain := if step.Login? then s.chains else s.pending[step.request].chain;
    assert forall j :: 0 <= j < |s.tokens| ==> s'.tokens[j] == s.tokens[j] && WellMinted(s.tokens[j], j, s.chains);
    assert forall i :: Live(s', i) && i >= |s.tokens| ==> i == |s.tokens| + 1 && s'.tokens[i].chain == chain;
    assert forall i :: Live(s', i) && i < |s.tokens| ==> s.tokens[i].chain != chain;
    assert forall r :: r in s'.pending ==> s'.pending[r].chain != chain;
  }

  lemma StepRepeatsIff(s: State, step: Step, cfg: Config)
    requires Grounded(s) && Enabled(s, step)
    ensures NoRepeats(Apply(s, step, cfg).exchanged) <==> NoRepeats(s.exchanged) && !Repeats(s, step)
  {
    var s' := Apply(s, step, cfg);
    if step.BeginRefresh? {
      ExchangesRevokedIffReuses(s, step);
      NoRepeatsSnoc(s.exchanged, step.jti);
    }
  }

  lemma NoRepeatsSnoc(s: seq<Jti>, j: Jti)
    ensures NoRepeats(s + [j]) <==> NoRepeats(s) && j !in s
  {
    var t := s + [j];
    assert t[|s|] == j && forall i :: 0 <= i < |s| ==> t[i] == s[i];
  }

  // ---- Whole runs ----

  lemma {:induction false} TraceIsGrounded(steps: seq<Step>, states: seq<State>, i: nat, cfg: Config)
    requires IsTrace(steps, states, cfg) && i < |states|
    ensures Grounded(states[i])
  {
    if i > 0 {
      TraceIsGrounded(steps, states, i - 1, cfg);
      StepIsGrounded(states[i - 1], steps[i - 1], cfg);
    }
  }

  function LiveTokens(s: State, chain: nat): set<Jti> {
    set j: Jti | j < |s.tokens| && Live(s, j) && s.tokens[j].chain == chain
  }

  function PendingMints(s: State, chain: nat): set<nat> {
    set r | r in s.pending && s.pending[r].chain == chain
  }

  lemma AtMostOne<T>(xs: set<T>)
    requires forall x, y :: x in xs && y in xs ==> x == y
    ensures |xs| <= 1
  {
    if x :| x in xs { assert xs == {x}; }
  }

  /** Each login has at most one refresh token that was never revoked plus refresh still waiting
      to mint. */
  ghost predicate Linear(s: State) {
    forall chain: nat :: |LiveTokens(s, chain)| + |PendingMints(s, chain)| <= 1
  }

  lemma TwoOrMore<T>(xs: set<T>, x: T, y: T)
    requires x in xs && y in xs && x != y
    ensures |xs| >= 2
  {
    assert y in xs - {x};
    assert |xs| == |xs - {x}| + 1;
  }

  lemma OneHolderIsLinear(s: State)
    requires OneHolder(s)
    ensures Linear(s)
  {
    forall chain: nat ensures |LiveTokens(s, chain)| + |PendingMints(s, chain)| <= 1 {
      AtMostOne(LiveTokens(s, chain));
      AtMostOne(PendingMints(s, chain));
      assert LiveTokens(s, chain) == {} || PendingMints(s, chain) == {};
    }
  }

  lemma LinearIsOneHolder(s: State)
    requires Linear(s)
    ensures OneHolder(s)
  {
    forall i, j | Live(s, i) && Live(s, j) && s.tokens[i].chain == s.tokens[j].chain ensures i == j {
      var held := LiveTokens(s, s.tokens[i].chain);
      if i != j { TwoOrMore(held, i, j); }
      assert |held| <= 1;
    }
    forall i, r | Live(s, i) && r in s.pending ensures s.tokens[i].chain != s.pending[r].chain {
      assert i in LiveTokens(s, s.tokens[i].chain);
      assert r in PendingMints(s, s.pending[r].chain);
    }
    forall q, r | q in s.pending && r in s.pending && s.pending[q].chain == s.pending[r].chain ensures q == r {
      var waiting := PendingMints(s, s.pending[q].chain);
      if q != r { TwoOrMore(waiting, q, r); }
      assert |LiveTokens(s, s.pending[q].chain)| + |waiting| <= 1;
    }
  }

  lemma StateSplitsIff(steps: seq<Step>, states: seq<State>, i: nat, cfg: Config)
    requires IsTrace(steps, states, cfg) && i < |steps| && OneHolder(states[i])
    ensures !OneHolder(states[i + 1]) <==> Splits(states[i], steps[i])
  {
    TraceIsGrounded(steps, states, i, cfg);
    StepSplitsIff(states[i], steps[i], cfg);
  }

  ghost predicate HeldUpTo(states: seq<State>, n: nat)
    requires n < |states|
  {
    OneHolder(states[n]) && (n > 0 ==> HeldUpTo(states, n - 1))
  }

  ghost predicate UnsplitUpTo(steps: seq<Step>, states: seq<State>, n: nat)
    requires n <= |steps| && n < |states|
  {
    n > 0 ==> !Splits(states[n - 1], steps[n - 1]) && UnsplitUpTo(steps, states, n - 1)
  }

  lemma {:induction false} HoldersUpTo(steps: seq<Step>, states: seq<State>, n: nat, cfg: Config)
    requires IsTrace(steps, states, cfg) && n <= |steps|
    ensures HeldUpTo(states, n) <==> UnsplitUpTo(steps, states, n)
  {
    if n > 0 {
      HoldersUpTo(steps, states, n - 1, cfg);
      if OneHolder(states[n - 1]) { StateSplitsIff(steps, states, n - 1, cfg); }
    }
  }

  lemma {:induction false} HeldIsAll(states: seq<State>, n: nat)
    requires n < |states|
    ensures HeldUpTo(states, n) <==> forall i :: 0 <= i <= n ==> OneHolder(states[i])
  {
    if n > 0 { HeldIsAll(states, n - 1); }
  }

  lemma {:induction false} UnsplitIsAll(steps: seq<Step>, states: seq<State>, n: nat)
    requires n <= |steps| && n < |states|
    ensures UnsplitUpTo(steps, states, n) <==> forall i :: 0 <= i < n ==> !Splits(states[i], steps[i])
  {
    if n > 0 { UnsplitIsAll(steps, states, n - 1); }
  }

  lemma {:induction false} ExchangesUpTo(steps: seq<Step>, states: seq<State>, n: nat, cfg: Config)
    requires IsTrace(steps, states, cfg) && n <= |steps|
    ensures NoRepeats(states[n].exchanged) <==> (forall i :: 0 <= i < n ==> !Repeats(states[i], steps[i]))
  {
    if n > 0 {
      ExchangesUpTo(steps, states, n - 1, cfg);
      TraceIsGrounded(steps, states, n - 1, cfg);
      StepRepeatsIff(states[n - 1], steps[n - 1], cfg);
    }
  }

  /** Rotation, exactly, for every interleaving. Each login has at most one unrevoked refresh
      token plus pending mint throughout, if and only if no step splits it; and no refresh token
      is exchanged twice, if and only if no step repeats one. */
  lemma RefreshChainIsLinear(steps: seq<Step>, states: seq<State>, cfg: Config)
    requires IsTrace(steps, states, cfg)
    ensures (forall i :: 0 <= i < |states| ==> Linear(states[i])) <==>
            (forall i :: 0 <= i < |steps| ==> !Splits(states[i], steps[i]))
    ensures NoRepeats(states[|steps|].exchanged) <==>
            (forall i :: 0 <= i < |steps| ==> !Repeats(states[i], steps[i]))
  {
    HoldersUpTo(steps, states, |steps|, cfg);
    HeldIsAll(states, |steps|);
    UnsplitIsAll(steps, states, |steps|);
    ExchangesUpTo(steps, states, |steps|, cfg);
    forall i | 0 <= i < |states| ensures Linear(states[i]) <==> OneHolder(states[i]) {
      if Linear(states[i]) { LinearIsOneHolder(states[i]); }
      if OneHolder(states[i]) { OneHolderIsLinear(states[i]); }
    }
  }

  /** In particular while no revoked refresh token is presented across its expiry; whatever
      other tokens expire during whatever other requests. */
  lemma UnreusedChainIsLinear(steps: seq<Step>, states: seq<State>, i: nat, cfg: Config)
    requires IsTrace(steps, states, cfg) && i < |states|
    requires forall k :: 0 <= k < i ==> !Reuses(states[k], steps[k])
    ensures Linear(states[i]) && NoRepeats(states[i].exchanged)
  {
    HoldersUpTo(steps, states, i, cfg);
    UnsplitIsAll(steps, states, i);
    ExchangesUpTo(steps, states, i, cfg);
    OneHolderIsLinear(states[i]);
  }

  /** With no assumption on the readings: at any step of any run, a token already exchanged is
      exchanged again if and only if it expires between the two clock readings of that step. */
  lemma ExchangedTwiceIffStraddling(steps: seq<Step>, states: seq<State>, i: nat, cfg: Config)
    requires IsTrace(steps, states, cfg) && i < |steps|
    requires steps[i].BeginRefresh? && steps[i].jti in states[i].exchanged
    requires states[i].tokens[steps[i].jti].claims.kind == Refresh
    ensures |states[i + 1].exchanged| == |states[i].exchanged| + 1
       <==> Straddles(states[i].tokens[steps[i].jti].claims, steps[i].t1, steps[i].t2)
  {
    TraceIsGrounded(steps, states, i, cfg);
    var s, step := states[i], steps[i];
    assert states[i + 1] == Apply(s, step, cfg);
    AcceptedAgainIffStraddling(s, step.jti, step.t1, step.t2);
  }

  /** A revoked refresh token, whether rotated or logged out, stays unusable: at any later step it
      decodes only if it expires between the clock readings of that step, and then it does. */
  lemma RevokedStaysRevoked(steps: seq<Step>, states: seq<State>, i: nat, k: nat, j: Jti, cfg: Config)
    requires IsTrace(steps, states, cfg) && i <= k < |steps| && j in EverRevoked(states[i].ops)
    requires IsDecode(steps[k]) && steps[k].jti == j
    ensures j < |states[k].tokens|
    ensures Decoding(states[k], j, steps[k].t1, steps[k].t2).Ok? <==>
            Straddles(states[k].tokens[j].claims, steps[k].t1, steps[k].t2)
  {
    StaysRevoked(steps, states, i, k, j, cfg);
    TraceIsGrounded(steps, states, k, cfg);
    AcceptedAgainIffStraddling(states[k], j, steps[k].t1, steps[k].t2);
  }

  /** The step takes the token out of use: a logout of a token that still decodes, or its exchange. */
  ghost predicate Withdraws(s: State, step: Step, j: Jti) {
    && j < |s.tokens| && IsDecode(step) && step.jti == j
    && ((step.Logout? && Decoding(s, j, step.t1, step.t2).Ok?)
        || (step.BeginRefresh? && Exchanges(s, j, step.t1, step.t2)))
  }

  lemma WithdrawnIsRevoked(s: State, step: Step, j: Jti, cfg: Config)
    requires Grounded(s) && Enabled(s, step) && Withdraws(s, step, j)
    ensures j in EverRevoked(Apply(s, step, cfg).ops)
  {
    assert WellMinted(s.tokens[j], j, s.chains);
    RevokeEffect(s, j, step.t1, step.t2);
  }

  /** A token that was logged out, or exchanged, is out of use: at any later step it decodes only if
      it expires between the clock readings of that step, and then it does. */
  lemma WithdrawnStaysWithdrawn(steps: seq<Step>, states: seq<State>, i: nat, k: nat, j: Jti, cfg: Config)
    requires IsTrace(steps, states, cfg) && i < k < |steps| && Withdraws(states[i], steps[i], j)
    requires IsDecode(steps[k]) && steps[k].jti == j
    ensures j < |states[k].tokens|
    ensures Decoding(states[k], j, steps[k].t1, steps[k].t2).Ok? <==>
            Straddles(states[k].tokens[j].claims, steps[k].t1, steps[k].t2)
  {
    TraceIsGrounded(steps, states, i, cfg);
    WithdrawnIsRevoked(states[i], steps[i], j, cfg);
    RevokedStaysRevoked(steps, states, i + 1, k, j, cfg);
  }

  /** Looking up or revoking one token leaves what is stored of another. */
  lemma OpSpares(ops: seq<Op>, op: Op, other: Jti, at: int)
    requires (op.LookUp? || op.Revoke?) && op.jti != other
    ensures Verdict(Stored(ops + [op]), other, at) == Verdict(Stored(ops), other, at)
  {
    OpSnoc(ops, op);
  }

  lemma LogoutOps(ops: seq<Op>, token: Claims, t1: int, t2: int, other: Jti, at: int)
    requires token.jti.Some? && token.jti.value != other
    ensures Verdict(Stored(ops + DecodeOps(token, t1, t2)), other, at) == Verdict(Stored(ops), other, at)
    ensures Verdict(Stored(ops + DecodeOps(token, t1, t2) + RevokeOps(token)), other, at)
            == Verdict(Stored(ops), other, at)
  {
    var decoded := ops + DecodeOps(token, t1, t2);
    OpSpares(ops, LookUp(token.jti.value, t2), other, at);
    assert ops + [] == ops && decoded + [] == decoded;
    if RevokeOps(token) != [] { OpSpares(decoded, Revoke(token.jti.value, token.exp.value), other, at); }
  }

  /** Logging out with one token leaves every other as it was: the access token of the same login
      goes on decoding until it expires. */
  lemma LogoutSparesOthers(s: State, j: Jti, t1: int, t2: int, other: Jti, u1: int, u2: int, cfg: Config)
    requires MintsOk(s) && j < |s.tokens| && other < |s.tokens| && other != j
    ensures Decoding(Apply(s, Logout(j, t1, t2), cfg), other, u1, u2) == Decoding(s, other, u1, u2)
  {
    assert WellMinted(s.tokens[j], j, s.chains) && WellMinted(s.tokens[other], other, s.chains);
    LogoutOps(s.ops, s.tokens[j].claims, t1, t2, other, u2);
  }

  lemma {:induction false} StaysRevoked(steps: seq<Step>, states: seq<State>, i: nat, k: nat, j: Jti, cfg: Config)
    requires IsTrace(steps, states, cfg) && i <= k < |states| && j in EverRevoked(states[i].ops)
    ensures j in EverRevoked(states[k].ops)
  {
    if i < k {
      StaysRevoked(steps, states, i, k - 1, j, cfg);
      TraceIsGrounded(steps, states, k - 1, cfg);
      StepKeepsStore(states[k - 1], steps[k - 1], cfg);
    }
  }

  /** The exception occurs: logged in at 0 with ten ticks to live, refreshed at 1, and refreshed
      again by a request that reads the clock at 9 and at 11. */
  lemma StraddlingRunExchangesTwice()
    ensures var cfg := Config(1, 10);
            var steps := [Login(7, 0), BeginRefresh(1, 1, 1), BeginRefresh(1, 9, 11)];
            exists states: seq<State> ::
              IsTrace(steps, states, cfg) && states[3].exchanged == [1, 1] && !Linear(states[3])
  {
    var cfg := Config(1, 10);
    var steps := [Login(7, 0), BeginRefresh(1, 1, 1), BeginRefresh(1, 9, 11)];
    var s0 := Start(0);
    var s1 := Apply(s0, steps[0], cfg);
    assert s1.tokens[1] == Issued(0, Claims(Some(7), Refresh, Some(10), Some(1)));
    var s2 := Apply(s1, steps[1], cfg);
    var empty: seq<Op> := [];
    OpSnoc(empty, LookUp(1, 1));
    OpSnoc(empty + [LookUp(1, 1)], Revoke(1, 10));
    assert s2.ops == empty + [LookUp(1, 1)] + [Revoke(1, 10)];
    assert Stored(s2.ops) == map[1 := 10];
    assert Exchanges(s2, 1, 9, 11);
    var s3 := Apply(s2, steps[2], cfg);
    var states := [s0, s1, s2, s3];
    assert Enabled(s0, steps[0]) && Enabled(s1, steps[1]) && Enabled(s2, steps[2]);
    assert IsTrace(steps, states, cfg);
    assert states[3].exchanged == [1, 1];
    TwoOrMore(PendingMints(s3, 0), 0, 1);
    assert |LiveTokens(s3, 0)| + |PendingMints(s3, 0)| > 1;
  }

  // ---- The endpoints ----

  datatype Reply = Tokens(access: Claims, refresh: Claims) | NotAuthenticated

  class AuthApi {
    const store: TokenRevocationStore
    const cfg: Config
    var nextJti: Jti
    ghost var state: State

    ghost predicate Valid()
      reads this, store
    {
      && store.Valid() && store.ops == state.ops
      && nextJti == |state.tokens| && MintsOk(state)
      && forall j :: j in store.revoked ==> j < nextJti
    }

    ghost predicate IsIssued(token: Claims)
      reads this
    {
      token.jti.Some? && token.jti.value < |state.tokens| && state.tokens[token.jti.value].claims == token
    }

    /** The two tokens are new, one of each kind, for this subject and with their own lifetimes; and
        the refresh token can be exchanged at once. */
    ghost predicate AreMinted(r: Reply, subject: nat, at: int, first: Jti)
      reads this, store
    {
      && r.Tokens? && IsIssued(r.access) && IsIssued(r.refresh)
      && r.access == Claims(Some(subject), Access, Some(at + cfg.accessTtl), Some(first))
      && r.refresh == Claims(Some(subject), Refresh, Some(at + cfg.refreshTtl), Some(first + 1))
      && (cfg.refreshTtl > 0 ==> Exchanges(state, first + 1, at, at))
    }

    constructor (store: TokenRevocationStore, cfg: Config, now: int)
      requires store.Valid() && store.ops == []
      ensures Valid() && this.store == store && this.cfg == cfg && state == Start(now)
    {
      this.store, this.cfg, nextJti, state := store, cfg, 0, Start(now);
    }

    method CreateAccessToken(subject: nat, at: int) returns (token: Claims)
      modifies this`nextJti
      ensures token == Claims(Some(subject), Access, Some(at + cfg.accessTtl), Some(old(nextJti)))
      ensures nextJti == old(nextJti) + 1
    {
      token := Claims(Some(subject), Access, Some(at + cfg.accessTtl), Some(nextJti));
      nextJti := nextJti + 1;
    }

    method CreateRefreshToken(subject: nat, at: int) returns (token: Claims)
      modifies this`nextJti
      ensures token == Claims(Some(subject), Refresh, Some(at + cfg.refreshTtl), Some(old(nextJti)))
      ensures nextJti == old(nextJti) + 1
    {
      token := Claims(Some(subject), Refresh, Some(at + cfg.refreshTtl), Some(nextJti));
      nextJti := nextJti + 1;
    }

    /** After the password check: mint both tokens. */
    method LoginUser(subject: nat, at: int) returns (r: Reply)
      requires Valid()
      modifies this
      ensures Valid() && state == Apply(old(state), Login(subject, at), cfg)
      ensures AreMinted(r, subject, at, |old(state).tokens|)
    {
      StepKeepsMints(state, Login(subject, at), cfg);
      var access := CreateAccessToken(subject, at);
      var refresh := CreateRefreshToken(subject, at);
      state := Apply(state, Login(subject, at), cfg);
      r := Tokens(access, refresh);
    }

    /** None is a string that is not one of the issued tokens: its signature does not verify. */
    method LogoutUser(presented: Option<Claims>, t1: int, t2: int)
      requires Valid() && (presented.Some? ==> IsIssued(presented.value))
      modifies this`state, store
      ensures Valid()
      ensures state == if presented.None? then old(state)
                       else Apply(old(state), Logout(presented.value.jti.value, t1, t2), cfg)
      ensures presented.Some? && t1 >= 0 && Decode(old(store.revoked), presented.value, t1, t2).Ok? ==>
                forall u1, u2 :: !Straddles(presented.value, u1, u2) ==>
                  !Decode(store.revoked, presented.value, u1, u2).Ok?
    {
      if presented.None? { return; }
      var token := presented.value;
      ghost var s := state;
      StepKeepsMints(s, Logout(token.jti.value, t1, t2), cfg);
      assert WellMinted(s.tokens[token.jti.value], token.jti.value, s.chains);
      state := Apply(s, Logout(token.jti.value, t1, t2), cfg);
      var d := DecodeToken(store, token, t1, t2);
      if d.Ok? && token.jti.Some? && token.exp.Some? && token.exp.value != 0 {
        store.RevokeToken(token.jti.value, token.exp.value);
      }
    }

    /** refresh_token up to its await: decode, check the type, revoke. */
    method RefreshBeforeAwait(presented: Option<Claims>, t1: int, t2: int)
        returns (subject: Option<nat>, ghost request: nat)
      requires Valid() && (presented.Some? ==> IsIssued(presented.value))
      modifies this`state, store
      ensures Valid() && request == old(state).requests
      ensures state == if presented.None? then old(state)
                       else Apply(old(state), BeginRefresh(presented.value.jti.value, t1, t2), cfg)
      ensures subject == if presented.Some? && Exchanges(old(state), presented.value.jti.value, t1, t2)
                         then presented.value.subject else None
    {
      ghost var s := state;
      request := s.requests;
      if presented.None? { return None, request; }
      var token := presented.value;
      StepKeepsMints(s, BeginRefresh(token.jti.value, t1, t2), cfg);
      state := Apply(s, BeginRefresh(token.jti.value, t1, t2), cfg);
      var d := DecodeToken(store, token, t1, t2);
      if !d.Ok? { return None, request; }
      if token.kind != Refresh { return None, request; }
      if token.subject == None { return None, request; }
      if token.jti.Some? && token.exp.Some? && token.exp.value != 0 {
        store.RevokeToken(token.jti.value, token.exp.value);
      }
      return token.subject, request;
    }

    /** refresh_token after its await: the user row was found active, or not. */
    method RefreshAfterAwait(subject: nat, ghost request: nat, active: bool, at: int) returns (r: Reply)
      requires Valid() && request in state.pending && state.pending[request].subject == subject
      modifies this
      ensures Valid() && state == Apply(old(state), FinishRefresh(request, active, at), cfg)
      ensures r.Tokens? <==> active
      ensures r.Tokens? ==> AreMinted(r, subject, at, |old(state).tokens|)
    {
      ghost var s := state;
      StepKeepsMints(s, FinishRefresh(request, active, at), cfg);
      state := Apply(s, FinishRefresh(request, active, at), cfg);
      if !active { return NotAuthenticated; }
      var access := CreateAccessToken(subject, at);
      var refresh := CreateRefreshToken(subject, at);
      return Tokens(access, refresh);
    }
  }
}
