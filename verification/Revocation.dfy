/** The self-cleaning revocation store of backend/app/security/token_revocation.py and the two
    checks of decode_token in backend/app/security/jwt.py, against a store that never forgets. */
module Revocation {
  import opened Basics

  /** A token identity (the `jti` claim of section 4.1.7 of RFC 7519), drawn fresh by uuid4. */
  type Jti = nat

  /** One operation on the store, with the clock reading it makes. */
  datatype Op = Revoke(jti: Jti, expiry: int) | LookUp(jti: Jti, at: int) | Sweep(at: int)

  // ---- The store as a value ----

  function Cleaned(m: map<Jti, int>, now: int): map<Jti, int> {
    map j | j in m && now <= m[j] :: m[j]
  }

  function Verdict(m: map<Jti, int>, jti: Jti, now: int): bool {
    jti in m && now <= m[jti]
  }

  function Stored(ops: seq<Op>): map<Jti, int> {
    if ops == [] then map[] else
      var m := Stored(ops[..|ops| - 1]);
      match ops[|ops| - 1]
      case Revoke(j, e) => m[j := e]
      case LookUp(j, t) => if j in m && t > m[j] then m - {j} else m
      case Sweep(t) => Cleaned(m, t)
  }

  /** Every revocation ever made, with the expiry it was last made with. */
  function EverRevoked(ops: seq<Op>): map<Jti, int> {
    if ops == [] then map[] else
      var m := EverRevoked(ops[..|ops| - 1]);
      match ops[|ops| - 1]
      case Revoke(j, e) => m[j := e]
      case LookUp(_, _) => m
      case Sweep(_) => m
  }

  /** The clock is nondecreasing over `ops` and has not passed `now`. */
  ghost predicate ClockBefore(ops: seq<Op>, now: int) {
    ops != [] ==>
      var init, op := ops[..|ops| - 1], ops[|ops| - 1];
      if op.Revoke? then ClockBefore(init, now)
      else op.at <= now && ClockBefore(init, op.at)
  }

  lemma {:induction false} ClockLater(ops: seq<Op>, now: int, later: int)
    requires ClockBefore(ops, now) && now <= later
    ensures ClockBefore(ops, later)
  {
    if ops != [] && ops[|ops| - 1].Revoke? { ClockLater(ops[..|ops| - 1], now, later); }
  }

  /** What cleaning threw away had expired, and what it kept is what was last recorded. */
  lemma {:induction false} ForgetsOnlyTheExpired(ops: seq<Op>, now: int)
    requires ClockBefore(ops, now)
    ensures forall j :: j in Stored(ops) ==> j in EverRevoked(ops) && Stored(ops)[j] == EverRevoked(ops)[j]
    ensures forall j :: j in EverRevoked(ops) && j !in Stored(ops) ==> EverRevoked(ops)[j] < now
  {
    if ops != [] {
      var init, op := ops[..|ops| - 1], ops[|ops| - 1];
      ForgetsOnlyTheExpired(init, if op.Revoke? then now else op.at);
    }
  }

  /** Over any run on a nondecreasing clock the self-cleaning store answers as one that never
      forgets: revoked, and not past the recorded expiry. */
  lemma RefinesNeverForgetting(ops: seq<Op>, jti: Jti, now: int)
    requires ClockBefore(ops, now)
    ensures Verdict(Stored(ops), jti, now) <==> jti in EverRevoked(ops) && now <= EverRevoked(ops)[jti]
  {
    ForgetsOnlyTheExpired(ops, now);
  }

  lemma OpSnoc(ops: seq<Op>, op: Op)
    ensures Stored(ops + [op]) ==
            if op.Revoke? then Stored(ops)[op.jti := op.expiry]
            else if op.Sweep? then Cleaned(Stored(ops), op.at)
            else if op.jti in Stored(ops) && op.at > Stored(ops)[op.jti] then Stored(ops) - {op.jti}
            else Stored(ops)
    ensures EverRevoked(ops + [op]) ==
            if op.Revoke? then EverRevoked(ops)[op.jti := op.expiry] else EverRevoked(ops)
    ensures forall now :: ClockBefore(ops + [op], now) <==>
              if op.Revoke? then ClockBefore(ops, now) else op.at <= now && ClockBefore(ops, op.at)
  {
    assert (ops + [op])[..|ops|] == ops;
  }

  lemma KeysLeft<T>(keys: set<T>, gone: set<T>)
    requires gone <= keys
    ensures |keys - gone| == |keys| - |gone|
  {
    assert keys == (keys - gone) + gone;
  }

  // ---- The class ----

  class TokenRevocationStore {
    var revoked: map<Jti, int>
    ghost var ops: seq<Op>

    ghost predicate Valid()
      reads this
    {
      revoked == Stored(ops)
    }

    constructor ()
      ensures Valid() && ops == []
    {
      revoked, ops := map[], [];
    }

    method RevokeToken(jti: Jti, expiresAt: int)
      requires Valid()
      modifies this
      ensures Valid() && ops == old(ops) + [Revoke(jti, expiresAt)]
      ensures revoked == old(revoked)[jti := expiresAt]
    {
      OpSnoc(ops, Revoke(jti, expiresAt));
      revoked := revoked[jti := expiresAt];
      ops := ops + [Revoke(jti, expiresAt)];
    }

    /** Answers for the never-forgetting store; drops the entry only once it is useless. */
    method IsRevoked(jti: Jti, now: int) returns (r: bool)
      requires Valid()
      modifies this
      ensures Valid() && ops == old(ops) + [LookUp(jti, now)]
      ensures r == Verdict(old(revoked), jti, now)
      ensures revoked == if jti in old(revoked) && now > old(revoked)[jti] then old(revoked) - {jti} else old(revoked)
      ensures ClockBefore(old(ops), now) ==>
                (r <==> jti in EverRevoked(old(ops)) && now <= EverRevoked(old(ops))[jti])
    {
      OpSnoc(ops, LookUp(jti, now));
      if ClockBefore(ops, now) { RefinesNeverForgetting(ops, jti, now); }
      ops := ops + [LookUp(jti, now)];
      if jti !in revoked { return false; }
      var expiry := revoked[jti];
      if now > expiry {
        revoked := revoked - {jti};
        return false;
      }
      return true;
    }

    /** Removes exactly the expired entries and counts them. */
    method Cleanup(now: int) returns (count: nat)
      requires Valid()
      modifies this
      ensures Valid() && ops == old(ops) + [Sweep(now)]
      ensures count == |old(revoked)| - |revoked|
      ensures forall j :: j in revoked <==> j in old(revoked) && now <= old(revoked)[j]
    {
      ghost var before, was := revoked, ops;
      ops := ops + [Sweep(now)];
      var expired := set j | j in revoked && now > revoked[j];
      count := |expired|;
      ghost var all := expired;
      while expired != {}
        invariant expired <= all
        invariant revoked.Keys == before.Keys - (all - expired)
        invariant forall j :: j in revoked ==> revoked[j] == before[j]
        invariant ops == was + [Sweep(now)]
        decreases expired
      {
        var j :| j in expired;
        revoked := revoked - {j};
        expired := expired - {j};
      }
      KeysLeft(before.Keys, all);
      assert revoked == Cleaned(before, now);
      OpSnoc(was, Sweep(now));
    }

    method Size() returns (n: nat)
      ensures n == |revoked|
    {
      n := |revoked|;
    }
  }

  // ---- decode_token ----

  datatype Kind = Access | Refresh

  /** The claims the code reads. Signatures are unforgeable, so a token is its claims. */
  datatype Claims = Claims(subject: Option<nat>, kind: Kind, exp: Option<int>, jti: Option<Jti>)

  datatype Decoded = Ok(claims: Claims) | Expired | Revoked

  /** Section 4.1.4 of RFC 7519: not accepted on or after the `exp` time. */
  predicate Unexpired(c: Claims, now: int) {
    c.exp.Some? ==> now < c.exp.value
  }

  /** The clock is read twice: at `t1` for the `exp` claim, at `t2` inside the store. */
  method DecodeToken(store: TokenRevocationStore, token: Claims, t1: int, t2: int) returns (r: Decoded)
    requires store.Valid()
    modifies store
    ensures store.Valid()
    ensures r == Decode(old(store.revoked), token, t1, t2)
    ensures store.ops == old(store.ops) + DecodeOps(token, t1, t2)
    ensures store.revoked.Keys <= old(store.revoked).Keys
  {
    if !Unexpired(token, t1) { return Expired; }
    if token.jti.Some? {
      var revoked := store.IsRevoked(token.jti.value, t2);
      if revoked { return Revoked; }
    }
    return Ok(token);
  }

  function Decode(m: map<Jti, int>, token: Claims, t1: int, t2: int): Decoded {
    if !Unexpired(token, t1) then Expired
    else if token.jti.Some? && Verdict(m, token.jti.value, t2) then Revoked
    else Ok(token)
  }

  function DecodeOps(token: Claims, t1: int, t2: int): seq<Op> {
    if Unexpired(token, t1) && token.jti.Some? then [LookUp(token.jti.value, t2)] else []
  }

  /** The token's expiry passes between the two clock readings. */
  predicate Straddles(token: Claims, t1: int, t2: int) {
    token.exp.Some? && t1 < token.exp.value < t2
  }

  /** Acceptance by `exp` and a revoked set that never shrinks. */
  predicate IdealAccepts(ops: seq<Op>, token: Claims, t1: int) {
    Unexpired(token, t1) && !(token.jti.Some? && token.jti.value in EverRevoked(ops))
  }

  /** Every revocation of this token was made with its own `exp`, as logout and rotation do. */
  ghost predicate RevokedWithOwnExpiry(ops: seq<Op>, token: Claims) {
    token.jti.Some? && token.jti.value in EverRevoked(ops) ==>
      token.exp == Some(EverRevoked(ops)[token.jti.value])
  }

  /** decode_token accepts what the ideal accepts, except in exactly one case: the token was
      revoked and expires between the two clock readings, so the store has already let go of
      an entry the expiry check did not yet make superfluous. */
  lemma DecodeAgreesUnlessStraddling(ops: seq<Op>, token: Claims, t1: int, t2: int)
    requires ClockBefore(ops, t1) && t1 <= t2 && RevokedWithOwnExpiry(ops, token)
    ensures (Decode(Stored(ops), token, t1, t2).Ok? <==> IdealAccepts(ops, token, t1))
       <==> !(Straddles(token, t1, t2) && token.jti.Some? && token.jti.value in EverRevoked(ops))
  {
    ClockLater(ops, t1, t2);
    if token.jti.Some? { RefinesNeverForgetting(ops, token.jti.value, t2); }
  }

  /** The case does occur: revoked, and yet accepted. */
  lemma StraddlingAcceptsRevoked(jti: Jti, exp: int)
    ensures var ops := [Revoke(jti, exp)];
            var token := Claims(Some(0), Refresh, Some(exp), Some(jti));
            && jti in EverRevoked(ops)
            && Decode(Stored(ops), token, exp - 1, exp).Revoked?
            && Decode(Stored(ops), token, exp - 1, exp + 1).Ok?
  {
    var empty: seq<Op> := [];
    OpSnoc(empty, Revoke(jti, exp));
    assert empty + [Revoke(jti, exp)] == [Revoke(jti, exp)];
  }
}
