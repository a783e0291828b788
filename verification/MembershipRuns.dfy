/** What holds after every run of membership requests: owners, invitations, acceptances and the
    trail of status changes; and what can no longer happen. */
module MembershipRuns {
  import opened Basics
  import opened Text
  import opened Membership

  // ---- Counting owners ----

  lemma OwnersAppend(ms: seq<Member>, m: Member, b: nat)
    ensures OwnerCount(ms + [m], b) == OwnerCount(ms, b) + (if IsLiveOwner(m, b) then 1 else 0)
  {
    assert (ms + [m])[..|ms|] == ms;
  }

  lemma {:induction false} OwnersUpdate(ms: seq<Member>, i: nat, m: Member, b: nat)
    requires i < |ms|
    ensures OwnerCount(ms[i := m], b) == OwnerCount(ms, b)
            - (if IsLiveOwner(ms[i], b) then 1 else 0) + (if IsLiveOwner(m, b) then 1 else 0)
  {
    var n := |ms| - 1;
    if i == n {
      assert ms[i := m][..n] == ms[..n];
    } else {
      assert ms[i := m][..n] == ms[..n][i := m];
      OwnersUpdate(ms[..n], i, m, b);
    }
  }

  lemma {:induction false} OwnersAtLeast(ms: seq<Member>, i: nat, b: nat)
    requires i < |ms| && IsLiveOwner(ms[i], b)
    ensures OwnerCount(ms, b) >= 1
    ensures forall j :: 0 <= j < |ms| && j != i && IsLiveOwner(ms[j], b) ==> OwnerCount(ms, b) >= 2
  {
    var gone := ms[i].(deletedAt := Some(0));
    OwnersUpdate(ms, i, gone, b);
    forall j | 0 <= j < |ms| && j != i && IsLiveOwner(ms[j], b) ensures OwnerCount(ms, b) >= 2 {
      var rest := ms[i := gone];
      OwnersUpdate(rest, j, rest[j].(deletedAt := Some(0)), b);
    }
  }

  lemma {:induction false} OwnersExist(ms: seq<Member>, b: nat)
    requires OwnerCount(ms, b) >= 1
    ensures exists i :: 0 <= i < |ms| && IsLiveOwner(ms[i], b)
  {
    if !IsLiveOwner(ms[|ms| - 1], b) {
      OwnersExist(ms[..|ms| - 1], b);
      var i :| 0 <= i < |ms| - 1 && IsLiveOwner(ms[..|ms| - 1][i], b);
      assert IsLiveOwner(ms[i], b);
    }
  }

  // ---- Ownership ----

  ghost predicate OneRowEach(ms: seq<Member>) {
    forall i, j :: 0 <= i < j < |ms| ==> ms[i].user != ms[j].user || ms[i].business != ms[j].business
  }

  ghost predicate Owned(db: Db) {
    && (forall i :: 0 <= i < |db.members| ==>
          db.members[i].user < |db.emails| && db.members[i].business < |db.businesses|)
    && (forall i :: 0 <= i < |db.invitations| ==> db.invitations[i].business < |db.businesses|)
    && OneRowEach(db.members)
    && (forall b: nat :: b < |db.businesses| ==> OwnerCount(db.members, b) >= 1)
  }

  /** The acting owner's own row, on which every owner-only request rests. */
  lemma ActorIsOwner(db: Db, user: nat, business: nat) returns (a: nat)
    requires Owned(db) && OwnerFailure(db, user, business).None?
    ensures a < |db.members| && IsLiveOwner(db.members[a], business) && db.members[a].user == user
  {
    a := FindMember(db.members, user, business);
  }

  lemma AppendKeepsOwned(db: Db, m: Member, db': Db)
    requires Owned(db) && m.user < |db.emails| && m.business < |db.businesses|
    requires !RowExists(db.members, m.user, m.business)
    requires db'.emails == db.emails && db'.businesses == db.businesses && db'.members == db.members + [m]
    requires db'.invitations == db.invitations
    ensures Owned(db')
  {
    forall b: nat | b < |db.businesses| ensures OwnerCount(db'.members, b) >= 1 {
      OwnersAppend(db.members, m, b);
    }
  }

  lemma CreateKeepsOwned(db: Db, user: nat, slug: string)
    requires Owned(db) && DoCreate(db, user, slug).Ok?
    ensures Owned(DoCreate(db, user, slug).db)
  {
    var db' := DoCreate(db, user, slug).db;
    var m := Member(user, |db.businesses|, Owner, None);
    forall b: nat | b < |db'.businesses| ensures OwnerCount(db'.members, b) >= 1 {
      OwnersAppend(db.members, m, b);
    }
  }

  lemma RemoveKeepsOwned(db: Db, user: nat, business: nat, member: nat, now: int)
    requires Owned(db) && DoRemove(db, user, business, member, now).Ok?
    ensures Owned(DoRemove(db, user, business, member, now).db)
  {
    var db' := DoRemove(db, user, business, member, now).db;
    var a := ActorIsOwner(db, user, business);
    assert db'.members[a] == db.members[a];
    OwnersAtLeast(db'.members, a, business);
    forall b: nat | b < |db.businesses| ensures OwnerCount(db'.members, b) >= 1 {
      OwnersUpdate(db.members, member, db'.members[member], b);
    }
  }

  lemma ChangeRoleKeepsOwned(db: Db, user: nat, business: nat, member: nat, role: Role, now: int)
    requires Owned(db) && DoChangeRole(db, user, business, member, role, now).Ok?
    ensures Owned(DoChangeRole(db, user, business, member, role, now).db)
  {
    var db' := DoChangeRole(db, user, business, member, role, now).db;
    forall b: nat | b < |db.businesses| ensures OwnerCount(db'.members, b) >= 1 {
      OwnersUpdate(db.members, member, db'.members[member], b);
    }
  }

  lemma AddKeepsOwned(db: Db, user: nat, business: nat, email: string, role: Role)
    requires Owned(db) && DoAdd(db, user, business, email, role).Ok?
    ensures Owned(DoAdd(db, user, business, email, role).db)
  {
    var joined := Member(FindUser(db.emails, email), business, role, None);
    AppendKeepsOwned(db, joined, DoAdd(db, user, business, email, role).db);
  }

  lemma AcceptKeepsOwned(db: Db, user: nat, invitation: nat, now: int)
    requires Owned(db) && DoAccept(db, user, invitation, now).Ok?
    ensures Owned(DoAccept(db, user, invitation, now).db)
  {
    var i := db.invitations[invitation];
    var joined := DoAccept(db, user, invitation, now).db.(invitations := db.invitations);
    AppendKeepsOwned(db, Member(user, i.business, i.role, None), joined);
  }

  lemma TransitionKeepsOwned(db: Db, user: nat, business: nat, target: Status, now: int)
    requires Owned(db) && DoTransition(db, user, business, target, now).Ok?
    ensures Owned(DoTransition(db, user, business, target, now).db)
  {
  }

  lemma InviteKeepsOwned(db: Db, user: nat, business: nat, raw: string, role: Role, now: int)
    requires Owned(db) && DoInvite(db, user, business, raw, role, now).Ok?
    ensures Owned(DoInvite(db, user, business, raw, role, now).db)
  {
  }

  lemma StepKeepsOwned(db: Db, t: Timed)
    requires Owned(db)
    ensures Owned(After(db, t))
  {
    if Handle(db, t.req, t.now).Ok? {
      match t.req
      case Register(_) =>
      case CreateBusiness(u, slug) => CreateKeepsOwned(db, u, slug);
      case Transition(u, b, target) => TransitionKeepsOwned(db, u, b, target, t.now);
      case AddMember(u, b, email, role) => AddKeepsOwned(db, u, b, email, role);
      case RemoveMember(u, b, m) => RemoveKeepsOwned(db, u, b, m, t.now);
      case Invite(u, b, raw, role) => InviteKeepsOwned(db, u, b, raw, role, t.now);
      case ChangeRole(u, b, m, role) => ChangeRoleKeepsOwned(db, u, b, m, role, t.now);
      case Accept(u, i) => AcceptKeepsOwned(db, u, i, t.now);
    }
  }

  lemma {:induction false} RunIsOwned(ts: seq<Timed>)
    ensures Owned(Run(ts))
  {
    if ts != [] {
      RunIsOwned(ts[..|ts| - 1]);
      StepKeepsOwned(Run(ts[..|ts| - 1]), ts[|ts| - 1]);
    }
  }

  /** After every run of requests, each business has a live owner, and no user has two
      memberships, live or deleted, in one business. */
  lemma EveryBusinessHasAnOwner(ts: seq<Timed>, business: nat)
    requires business < |Run(ts).businesses|
    ensures exists i :: 0 <= i < |Run(ts).members| && IsLiveOwner(Run(ts).members[i], business)
    ensures OneRowEach(Run(ts).members)
  {
    RunIsOwned(ts);
    OwnersExist(Run(ts).members, business);
  }

  /** The last-owner guard of removal never fires: whoever removes an owner is another one. */
  lemma RemovalNeverHitsLastOwner(ts: seq<Timed>, user: nat, business: nat, member: nat, now: int)
    ensures DoRemove(Run(ts), user, business, member, now) != Err(LastOwner)
  {
    var db := Run(ts);
    RunIsOwned(ts);
    if OwnerFailure(db, user, business).None? && IsMemberOf(db, member, business) && db.members[member].user != user {
      var a := ActorIsOwner(db, user, business);
      OwnersAtLeast(db.members, a, business);
    }
  }

  /** The last-owner guard of role changes fires exactly when the only owner steps down. */
  lemma DemotionHitsLastOwnerIff(ts: seq<Timed>, user: nat, business: nat, member: nat, role: Role, now: int)
    ensures DoChangeRole(Run(ts), user, business, member, role, now) == Err(LastOwner) <==>
            && OwnerFailure(Run(ts), user, business).None? && IsMemberOf(Run(ts), member, business)
            && Run(ts).members[member].user == user && role != Owner
            && forall i :: 0 <= i < |Run(ts).members| && i != member ==> !IsLiveOwner(Run(ts).members[i], business)
  {
    var db := Run(ts);
    RunIsOwned(ts);
    if OwnerFailure(db, user, business).None? && IsMemberOf(db, member, business) {
      var a := ActorIsOwner(db, user, business);
      OwnersAtLeast(db.members, a, business);
      if db.members[member].role == Owner { OwnersAtLeast(db.members, member, business); }
      if member == a && forall i :: 0 <= i < |db.members| && i != a ==> !IsLiveOwner(db.members[i], business) {
        OnlyOwnerCountsOne(db.members, a, business);
      }
    }
  }

  lemma OnlyOwnerCountsOne(ms: seq<Member>, a: nat, b: nat)
    requires a < |ms| && IsLiveOwner(ms[a], b)
    requires forall i :: 0 <= i < |ms| && i != a ==> !IsLiveOwner(ms[i], b)
    ensures OwnerCount(ms, b) == 1
  {
    var gone := ms[a].(deletedAt := Some(0));
    OwnersUpdate(ms, a, gone, b);
    var rest := ms[a := gone];
    assert forall i :: 0 <= i < |rest| ==> rest[i] == if i == a then gone else ms[i];
    if OwnerCount(rest, b) >= 1 { OwnersExist(rest, b); }
  }

  // ---- Removed for good ----

  ghost predicate RowsKept(db: Db, db': Db) {
    && |db.members| <= |db'.members|
    && (forall i :: 0 <= i < |db.members| ==>
          && db'.members[i].user == db.members[i].user && db'.members[i].business == db.members[i].business
          && (db.members[i].deletedAt.Some? ==> db'.members[i] == db.members[i]))
  }

  lemma StepKeepsRows(db: Db, t: Timed)
    ensures RowsKept(db, After(db, t))
  {
    match t.req
    case Register(_) =>
    case CreateBusiness(_, _) =>
    case Transition(_, _, _) =>
    case AddMember(_, _, _, _) =>
    case RemoveMember(_, _, _) =>
    case Invite(_, _, _, _) =>
    case ChangeRole(_, _, _, _) =>
    case Accept(_, _) =>
  }

  lemma SplitLast(ts: seq<Timed>, us: seq<Timed>)
    requires us != []
    ensures (ts + us)[..|ts + us| - 1] == ts + us[..|us| - 1] && (ts + us)[|ts + us| - 1] == us[|us| - 1]
  {
  }

  lemma RunSnoc(ts: seq<Timed>, us: seq<Timed>)
    requires us != []
    ensures Run(ts + us) == After(Run(ts + us[..|us| - 1]), us[|us| - 1])
  {
    SplitLast(ts, us);
  }

  lemma {:induction false} RowsPersist(ts: seq<Timed>, us: seq<Timed>, i: nat)
    requires i < |Run(ts).members|
    ensures i < |Run(ts + us).members|
    ensures Run(ts + us).members[i].user == Run(ts).members[i].user
         && Run(ts + us).members[i].business == Run(ts).members[i].business
    ensures Run(ts).members[i].deletedAt.Some? ==> Run(ts + us).members[i] == Run(ts).members[i]
  {
    if us == [] {
      assert ts + us == ts;
    } else {
      var n := |us| - 1;
      RowsPersist(ts, us[..n], i);
      RunSnoc(ts, us);
      StepKeepsRows(Run(ts + us[..n]), us[n]);
    }
  }

  /** The unique constraint counts deleted rows, so removal is for good: in no later state is the
      removed user a member of that business, however often added or invited again. */
  lemma RemovedForGood(ts: seq<Timed>, us: seq<Timed>, i: nat)
    requires i < |Run(ts).members| && Run(ts).members[i].deletedAt.Some?
    ensures var m := Run(ts).members[i];
            forall j :: 0 <= j < |Run(ts + us).members| ==> !IsLive(Run(ts + us).members[j], m.user, m.business)
  {
    RowsPersist(ts, us, i);
    RunIsOwned(ts + us);
  }

  // ---- Requests, exactly ----

  /** The user was a live member of the business after some prefix of the run. */
  predicate EverMember(ts: seq<Timed>, user: nat, business: nat) {
    ts != [] && (EverMember(ts[..|ts| - 1], user, business) || FindMember(Run(ts).members, user, business) >= 0)
  }

  lemma NewRowsAreLive(db: Db, t: Timed)
    ensures forall i :: |db.members| <= i < |After(db, t).members| ==> After(db, t).members[i].deletedAt.None?
  {
    match t.req
    case Register(_) =>
    case CreateBusiness(_, _) =>
    case Transition(_, _, _) =>
    case AddMember(_, _, _, _) =>
    case RemoveMember(_, _, _) =>
    case Invite(_, _, _, _) =>
    case ChangeRole(_, _, _, _) =>
    case Accept(_, _) =>
  }

  lemma StepMembers(db: Db, t: Timed, user: nat, business: nat)
    ensures RowExists(After(db, t).members, user, business) <==>
            RowExists(db.members, user, business) || FindMember(After(db, t).members, user, business) >= 0
  {
    var db' := After(db, t);
    StepKeepsRows(db, t);
    NewRowsAreLive(db, t);
    LiveRowIsRow(db'.members, user, business);
    if i :| 0 <= i < |db.members| && db.members[i].user == user && db.members[i].business == business {
      assert db'.members[i].user == user && db'.members[i].business == business;
    }
    if i :| 0 <= i < |db'.members| && db'.members[i].user == user && db'.members[i].business == business {
      if i < |db.members| { assert db.members[i].user == user && db.members[i].business == business; }
    }
  }

  /** The row that the unique constraint looks at exists exactly for whoever was once a member. */
  lemma {:induction false} RowIffEverMember(ts: seq<Timed>, user: nat, business: nat)
    ensures RowExists(Run(ts).members, user, business) <==> EverMember(ts, user, business)
  {
    if ts != [] {
      RowIffEverMember(ts[..|ts| - 1], user, business);
      StepMembers(Run(ts[..|ts| - 1]), ts[|ts| - 1], user, business);
    }
  }

  /** After every run, adding succeeds iff an owner asks for a registered user who never was a
      member of the business, and ends in the constraint exactly for a former member: the check for
      a live membership alone does not decide it. */
  lemma AddSucceedsIff(ts: seq<Timed>, user: nat, business: nat, email: string, role: Role)
    ensures var db, target := Run(ts), FindUser(Run(ts).emails, email);
            var r := DoAdd(db, user, business, email, role);
            && (r.Ok? <==>
                  && OwnerFailure(db, user, business).None? && email in db.emails
                  && !EverMember(ts, target, business))
            && (r == Err(IntegrityError) <==>
                  && OwnerFailure(db, user, business).None? && email in db.emails
                  && EverMember(ts, target, business) && FindMember(db.members, target, business) < 0)
            && (r.Ok? ==> r.db.members == db.members + [Member(target, business, role, None)])
  {
    var target := FindUser(Run(ts).emails, email);
    if target >= 0 {
      RowIffEverMember(ts, target, business);
      LiveRowIsRow(Run(ts).members, target, business);
    }
  }

  /** No removal is on record for a live row. */
  ghost predicate RemovalsRecorded(db: Db) {
    forall e :: e in db.outbox && e.body.MemberRemoved? ==>
      e.body.member < |db.members| && db.members[e.body.member].deletedAt.Some?
  }

  lemma StepRecordsRemovals(db: Db, t: Timed)
    requires RemovalsRecorded(db)
    ensures RemovalsRecorded(After(db, t))
  {
    StepKeepsRows(db, t);
    match t.req
    case Register(_) =>
    case CreateBusiness(_, _) =>
    case Transition(_, _, _) =>
    case AddMember(_, _, _, _) =>
    case RemoveMember(_, _, _) =>
    case Invite(_, _, _, _) =>
    case ChangeRole(_, _, _, _) =>
    case Accept(_, _) =>
  }

  lemma {:induction false} RunRecordsRemovals(ts: seq<Timed>)
    ensures RemovalsRecorded(Run(ts))
  {
    if ts != [] {
      RunRecordsRemovals(ts[..|ts| - 1]);
      StepRecordsRemovals(Run(ts[..|ts| - 1]), ts[|ts| - 1]);
    }
  }

  /** Removing succeeds iff an owner asks for a live member other than himself, whatever that
      member's role; it ends this membership and leaves everybody else's alone. */
  lemma RemoveSucceedsIff(ts: seq<Timed>, user: nat, business: nat, member: nat, now: int)
    ensures var db := Run(ts);
            var r := DoRemove(db, user, business, member, now);
            && (r.Ok? <==>
                  && OwnerFailure(db, user, business).None? && IsMemberOf(db, member, business)
                  && db.members[member].user != user)
            && (r.Ok? ==> OnlyEnds(db, r.db, member))
  {
    var db := Run(ts);
    RunRecordsRemovals(ts);
    RunIsOwned(ts);
    RemovalNeverHitsLastOwner(ts, user, business, member, now);
  }

  ghost predicate OnlyEnds(db: Db, db': Db, member: nat)
    requires member < |db.members|
  {
    && FindMember(db'.members, db.members[member].user, db.members[member].business) < 0
    && |db'.members| == |db.members|
    && forall i :: 0 <= i < |db.members| && i != member ==> db'.members[i] == db.members[i]
  }

  /** A role change succeeds iff an owner asks for a live member, the only owner does not step
      down, and a real change was not already recorded within the same second; it changes that
      role and no other membership. */
  lemma RoleChangeSucceedsIff(ts: seq<Timed>, user: nat, business: nat, member: nat, role: Role, now: int)
    ensures var db := Run(ts);
            var r := DoChangeRole(db, user, business, member, role, now);
            && (r.Ok? <==>
                  && OwnerFailure(db, user, business).None? && IsMemberOf(db, member, business)
                  && (db.members[member].user == user && role != Owner ==>
                        exists i :: 0 <= i < |db.members| && i != member && IsLiveOwner(db.members[i], business))
                  && (db.members[member].role != role ==>
                        Event(RoleChanged(member, role), Some(Second(now))) !in db.outbox))
            && (r.Ok? ==> r.db.members == db.members[member := db.members[member].(role := role)])
  {
    DemotionHitsLastOwnerIff(ts, user, business, member, role, now);
  }

  lemma LiveRowIsRow(ms: seq<Member>, user: nat, business: nat)
    ensures FindMember(ms, user, business) >= 0 ==> RowExists(ms, user, business)
  {
    var i := FindMember(ms, user, business);
    if i >= 0 { assert ms[i].user == user && ms[i].business == business; }
  }

  // ---- Invitations ----

  ghost predicate Clocked(ts: seq<Timed>) {
    forall i, j :: 0 <= i < j < |ts| ==> ts[i].now <= ts[j].now
  }

  /** The clock reading of the last request. */
  predicate NotAfter(ts: seq<Timed>, now: int) {
    ts != [] ==> ts[|ts| - 1].now <= now
  }

  /** Of two unused invitations for the same address the older one has expired. */
  ghost predicate OlderExpired(db: Db, now: int) {
    forall i, j :: 0 <= i < j < |db.invitations| && db.invitations[j].usedAt.None?
                   && IsUnused(db.invitations[i], db.invitations[j].business, db.invitations[j].email) ==>
                   IsExpired(db.invitations[i], now)
  }

  lemma {:induction false} UnusedAtLeast(invs: seq<Invitation>, i: nat, b: nat, email: string)
    requires i < |invs| && IsUnused(invs[i], b, email)
    ensures UnusedCount(invs, b, email) >= 1
    ensures forall j :: i < j < |invs| && IsUnused(invs[j], b, email) ==> UnusedCount(invs, b, email) >= 2
  {
    var n := |invs| - 1;
    if i < n { UnusedAtLeast(invs[..n], i, b, email); }
    forall j | i < j < |invs| && IsUnused(invs[j], b, email) ensures UnusedCount(invs, b, email) >= 2 {
      if j < n { assert IsUnused(invs[..n][j], b, email); }
    }
  }

  lemma InviteKeepsOlderExpired(db: Db, now: int, user: nat, business: nat, raw: string, role: Role)
    requires OlderExpired(db, now) && DoInvite(db, user, business, raw, role, now).Ok?
    ensures OlderExpired(DoInvite(db, user, business, raw, role, now).db, now)
  {
    var email := Normalized(raw);
    var invs := db.invitations;
    forall i | 0 <= i < |invs| && IsUnused(invs[i], business, email) ensures IsExpired(invs[i], now) {
      var e := FindUnused(invs, business, email);
      if i < e { UnusedAtLeast(invs, i, business, email); }
      if e < i { UnusedAtLeast(invs, e, business, email); }
    }
  }

  lemma StepKeepsOlderExpired(db: Db, t: Timed, before: int)
    requires OlderExpired(db, before) && before <= t.now
    ensures OlderExpired(After(db, t), t.now)
  {
    assert OlderExpired(db, t.now);
    if Handle(db, t.req, t.now).Ok? && t.req.Invite? {
      InviteKeepsOlderExpired(db, t.now, t.req.user, t.req.business, t.req.email, t.req.role);
    }
  }

  lemma {:induction false} RunOlderExpired(ts: seq<Timed>, now: int)
    requires Clocked(ts) && NotAfter(ts, now)
    ensures OlderExpired(Run(ts), now)
  {
    if ts != [] {
      var n := |ts| - 1;
      RunOlderExpired(ts[..n], ts[n].now);
      StepKeepsOlderExpired(Run(ts[..n]), ts[n], ts[n].now);
      assert OlderExpired(Run(ts), ts[n].now);
    }
  }

  /** At every moment there is at most one usable invitation per business and address. */
  lemma OneUsableInvitation(ts: seq<Timed>, now: int, i: nat, j: nat)
    requires Clocked(ts) && NotAfter(ts, now) && i < |Run(ts).invitations| && j < |Run(ts).invitations|
    requires var invs := Run(ts).invitations;
             && invs[i].business == invs[j].business && invs[i].email == invs[j].email
             && invs[i].usedAt.None? && invs[j].usedAt.None?
             && !IsExpired(invs[i], now) && !IsExpired(invs[j], now)
    ensures i == j
  {
    RunOlderExpired(ts, now);
    if i < j { assert IsUnused(Run(ts).invitations[i], Run(ts).invitations[j].business, Run(ts).invitations[j].email); }
    if j < i { assert IsUnused(Run(ts).invitations[j], Run(ts).invitations[i].business, Run(ts).invitations[i].email); }
  }

  // ---- Acceptances ----

  ghost predicate AcceptanceOk(db: Db, a: Acceptance) {
    && a.invitation < |db.invitations| && a.member < |db.members| && db.members[a.member].user < |db.emails|
    && var i, m := db.invitations[a.invitation], db.members[a.member];
       && i.usedAt.Some? && a.role == i.role
       && m.business == i.business && Normalized(db.emails[m.user]) == i.email
  }

  predicate IsBacked(db: Db, i: nat) {
    exists k :: 0 <= k < |db.acceptances| && db.acceptances[k].invitation == i
  }

  ghost predicate AllOk(db: Db) {
    forall k :: 0 <= k < |db.acceptances| ==> AcceptanceOk(db, db.acceptances[k])
  }

  predicate NoneTwice(acceptances: seq<Acceptance>) {
    forall j, k :: 0 <= j < k < |acceptances| ==>
      acceptances[j].invitation != acceptances[k].invitation && acceptances[j].member != acceptances[k].member
  }

  ghost predicate AllBacked(db: Db) {
    forall i :: 0 <= i < |db.invitations| && db.invitations[i].usedAt.Some? ==> IsBacked(db, i)
  }

  ghost predicate Backed(db: Db) {
    AllOk(db) && NoneTwice(db.acceptances) && AllBacked(db)
  }

  /** No event is announced before it happened, so the keys of later ones are free. */
  ghost predicate Announced(db: Db) {
    && (forall e :: e in db.outbox && e.body.MemberAccepted? ==>
          e.body.invitation < |db.invitations| && db.invitations[e.body.invitation].usedAt.Some?)
    && (forall e :: e in db.outbox && e.body.MemberInvited? ==> e.body.invitation < |db.invitations|)
  }

  lemma AcceptKeepsAllBacked(db: Db, user: nat, invitation: nat, now: int)
    requires AllBacked(db) && DoAccept(db, user, invitation, now).Ok?
    ensures AllBacked(DoAccept(db, user, invitation, now).db)
  {
    var db' := DoAccept(db, user, invitation, now).db;
    forall i | 0 <= i < |db'.invitations| && db'.invitations[i].usedAt.Some? ensures IsBacked(db', i) {
      if i == invitation {
        assert db'.acceptances[|db.acceptances|].invitation == i;
      } else {
        assert IsBacked(db, i);
        var k :| 0 <= k < |db.acceptances| && db.acceptances[k].invitation == i;
        assert db'.acceptances[k].invitation == i;
      }
    }
  }

  lemma OldAcceptanceStays(db: Db, user: nat, invitation: nat, now: int, a: Acceptance)
    requires DoAccept(db, user, invitation, now).Ok? && AcceptanceOk(db, a)
    ensures AcceptanceOk(DoAccept(db, user, invitation, now).db, a)
    ensures a.invitation != invitation && a.member < |db.members|
  {
  }

  lemma NewAcceptanceIsOk(db: Db, user: nat, invitation: nat, now: int) returns (a: Acceptance)
    requires DoAccept(db, user, invitation, now).Ok?
    ensures AcceptanceOk(DoAccept(db, user, invitation, now).db, a)
    ensures DoAccept(db, user, invitation, now).db.acceptances == db.acceptances + [a]
    ensures a.invitation == invitation && a.member == |db.members|
  {
    a := Acceptance(invitation, |db.members|, db.invitations[invitation].role);
  }

  lemma AcceptKeepsAllOk(db: Db, user: nat, invitation: nat, now: int)
    requires AllOk(db) && DoAccept(db, user, invitation, now).Ok?
    ensures AllOk(DoAccept(db, user, invitation, now).db)
  {
    var db' := DoAccept(db, user, invitation, now).db;
    var a := NewAcceptanceIsOk(db, user, invitation, now);
    forall k | 0 <= k < |db'.acceptances| ensures AcceptanceOk(db', db'.acceptances[k]) {
      if k < |db.acceptances| { OldAcceptanceStays(db, user, invitation, now, db.acceptances[k]); }
    }
  }

  lemma NoneTwiceSnoc(acceptances: seq<Acceptance>, a: Acceptance)
    requires NoneTwice(acceptances)
    requires forall k :: 0 <= k < |acceptances| ==>
               acceptances[k].invitation != a.invitation && acceptances[k].member != a.member
    ensures NoneTwice(acceptances + [a])
  {
  }

  lemma AcceptKeepsBacked(db: Db, user: nat, invitation: nat, now: int)
    requires Backed(db) && DoAccept(db, user, invitation, now).Ok?
    ensures Backed(DoAccept(db, user, invitation, now).db)
  {
    AcceptKeepsAllOk(db, user, invitation, now);
    AcceptKeepsAllBacked(db, user, invitation, now);
    var a := NewAcceptanceIsOk(db, user, invitation, now);
    forall k | 0 <= k < |db.acceptances|
      ensures db.acceptances[k].invitation != a.invitation && db.acceptances[k].member != a.member
    {
      OldAcceptanceStays(db, user, invitation, now, db.acceptances[k]);
    }
    NoneTwiceSnoc(db.acceptances, a);
  }

  /** What a request other than an acceptance leaves alone. */
  lemma OthersAcceptNothing(db: Db, t: Timed)
    requires !t.req.Accept?
    ensures var db' := After(db, t);
            && db'.acceptances == db.acceptances
            && |db.invitations| <= |db'.invitations| && db'.invitations[..|db.invitations|] == db.invitations
            && (forall i :: |db.invitations| <= i < |db'.invitations| ==> db'.invitations[i].usedAt.None?)
            && |db.emails| <= |db'.emails| && db'.emails[..|db.emails|] == db.emails
  {
    match t.req
    case Register(_) =>
    case CreateBusiness(_, _) =>
    case Transition(_, _, _) =>
    case AddMember(_, _, _, _) =>
    case RemoveMember(_, _, _) =>
    case Invite(_, _, _, _) =>
    case ChangeRole(_, _, _, _) =>
  }

  lemma OtherKeepsBacked(db: Db, t: Timed)
    requires Backed(db) && !t.req.Accept?
    ensures Backed(After(db, t))
  {
    var db' := After(db, t);
    StepKeepsRows(db, t);
    OthersAcceptNothing(db, t);
    assert forall i :: 0 <= i < |db.invitations| ==> db'.invitations[i] == db.invitations[i];
    assert forall u :: 0 <= u < |db.emails| ==> db'.emails[u] == db.emails[u];
    forall k | 0 <= k < |db.acceptances| ensures AcceptanceOk(db', db.acceptances[k]) {
      assert AcceptanceOk(db, db.acceptances[k]);
    }
    forall i | 0 <= i < |db'.invitations| && db'.invitations[i].usedAt.Some? ensures IsBacked(db', i) {
      assert IsBacked(db, i);
    }
  }

  lemma StepKeepsAnnounced(db: Db, t: Timed)
    requires Announced(db)
    ensures Announced(After(db, t))
  {
    match t.req
    case Register(_) =>
    case CreateBusiness(_, _) =>
    case Transition(_, _, _) =>
    case AddMember(_, _, _, _) =>
    case RemoveMember(_, _, _) =>
    case Invite(_, _, _, _) =>
    case ChangeRole(_, _, _, _) =>
    case Accept(_, _) =>
  }

  lemma {:induction false} RunIsBacked(ts: seq<Timed>)
    ensures Backed(Run(ts)) && Announced(Run(ts))
  {
    if ts != [] {
      var db, t := Run(ts[..|ts| - 1]), ts[|ts| - 1];
      RunIsBacked(ts[..|ts| - 1]);
      StepKeepsAnnounced(db, t);
      if !t.req.Accept? {
        OtherKeepsBacked(db, t);
      } else if Handle(db, t.req, t.now).Ok? {
        AcceptKeepsBacked(db, t.req.user, t.req.invitation, t.now);
      }
    }
  }

  /** After every run the used invitations and the memberships made by accepting are in one-to-one
      correspondence, with matching business, address and role. */
  lemma UsedInvitationsAreMemberships(ts: seq<Timed>)
    ensures var db := Run(ts);
            && (forall k :: 0 <= k < |db.acceptances| ==> AcceptanceOk(db, db.acceptances[k]))
            && (forall i :: 0 <= i < |db.invitations| ==>
                  (db.invitations[i].usedAt.Some? <==> IsBacked(db, i)))
            && (forall j, k :: 0 <= j < k < |db.acceptances| ==>
                  && db.acceptances[j].invitation != db.acceptances[k].invitation
                  && db.acceptances[j].member != db.acceptances[k].member)
  {
    RunIsBacked(ts);
    var db := Run(ts);
    forall i | 0 <= i < |db.invitations| && IsBacked(db, i) ensures db.invitations[i].usedAt.Some? {
      var k :| 0 <= k < |db.acceptances| && db.acceptances[k].invitation == i;
      assert AcceptanceOk(db, db.acceptances[k]);
    }
  }

  /** Accepting succeeds iff the invitation is usable, addressed to the user, and the user never
      was in the business; then one transaction uses it up and creates the membership. */
  lemma AcceptSucceedsIff(ts: seq<Timed>, user: nat, invitation: nat, now: int)
    ensures var db := Run(ts);
            var r := DoAccept(db, user, invitation, now);
            && (r.Ok? <==>
                  && user < |db.emails| && invitation < |db.invitations|
                  && db.invitations[invitation].usedAt.None? && !IsExpired(db.invitations[invitation], now)
                  && Normalized(db.emails[user]) == db.invitations[invitation].email
                  && !EverMember(ts, user, db.invitations[invitation].business))
            && (r.Ok? ==>
                  && r.db.invitations[invitation].usedAt == Some(now)
                  && r.db.members == db.members + [Member(user, db.invitations[invitation].business,
                                                          db.invitations[invitation].role, None)]
                  && DoAccept(r.db, user, invitation, now) == Err(Invalid))
  {
    RunIsBacked(ts);
    AcceptIff(Run(ts), user, invitation, now);
    if invitation < |Run(ts).invitations| { RowIffEverMember(ts, user, Run(ts).invitations[invitation].business); }
  }

  lemma AcceptIff(db: Db, user: nat, invitation: nat, now: int)
    requires Announced(db)
    ensures DoAccept(db, user, invitation, now).Ok? <==>
            && user < |db.emails| && invitation < |db.invitations|
            && db.invitations[invitation].usedAt.None? && !IsExpired(db.invitations[invitation], now)
            && Normalized(db.emails[user]) == db.invitations[invitation].email
            && !RowExists(db.members, user, db.invitations[invitation].business)
  {
    if user < |db.emails| && invitation < |db.invitations| {
      LiveRowIsRow(db.members, user, db.invitations[invitation].business);
    }
  }

  /** A fresh invitation lets in just its addressee, for just seven days, with just its role. */
  lemma InvitationAdmitsItsAddressee(ts: seq<Timed>, owner: nat, business: nat, raw: string, role: Role, now: int,
                                     user: nat, later: int)
    requires DoInvite(Run(ts), owner, business, raw, role, now).Ok?
    ensures var db := DoInvite(Run(ts), owner, business, raw, role, now).db;
            var r := DoAccept(db, user, |Run(ts).invitations|, later);
            && (r.Ok? <==>
                  && user < |db.emails| && Normalized(db.emails[user]) == Normalized(raw)
                  && later <= now + INVITATION_TICKS && !EverMember(ts, user, business))
            && (r.Ok? ==> r.db.members == db.members + [Member(user, business, role, None)])
  {
    RunIsBacked(ts);
    InvitedOnce(Run(ts), owner, business, raw, role, now);
    InviteKeepsAnnounced(Run(ts), owner, business, raw, role, now);
    RowIffEverMember(ts, user, business);
    AcceptIff(DoInvite(Run(ts), owner, business, raw, role, now).db, user, |Run(ts).invitations|, later);
  }

  lemma InviteKeepsAnnounced(db: Db, owner: nat, business: nat, raw: string, role: Role, now: int)
    requires Announced(db) && DoInvite(db, owner, business, raw, role, now).Ok?
    ensures Announced(DoInvite(db, owner, business, raw, role, now).db)
  {
    StepKeepsAnnounced(db, Timed(Invite(owner, business, raw, role), now));
  }

  /** Inviting succeeds iff an owner asks, no live member has the normalized address, and at most
      one unused invitation for it is on file, an expired one. */
  lemma InviteSucceedsIff(ts: seq<Timed>, user: nat, business: nat, raw: string, role: Role, now: int)
    ensures var db := Run(ts);
            var email := Normalized(raw);
            DoInvite(db, user, business, raw, role, now).Ok? <==>
            && OwnerFailure(db, user, business).None?
            && !(email in db.emails && FindMember(db.members, FindUser(db.emails, email), business) >= 0)
            && UnusedCount(db.invitations, business, email) <= 1
            && forall i :: 0 <= i < |db.invitations| && IsUnused(db.invitations[i], business, email) ==>
                 IsExpired(db.invitations[i], now)
  {
    RunIsBacked(ts);
    var db, email := Run(ts), Normalized(raw);
    var invs := db.invitations;
    var e := FindUnused(invs, business, email);
    if UnusedCount(invs, business, email) <= 1 {
      forall i | 0 <= i < |invs| && IsUnused(invs[i], business, email) ensures i == e {
        if i < e { UnusedAtLeast(invs, i, business, email); }
        if e < i { UnusedAtLeast(invs, e, business, email); }
      }
    }
  }

  /** Two expired invitations on file block the address for good: the lookup finds two rows, so
      every later invitation of it to that business fails. */
  lemma StaleInvitationsBlockForever(ts: seq<Timed>, us: seq<Timed>, i: nat, j: nat,
                                     user: nat, raw: string, role: Role, now: int)
    requires Clocked(ts + us) && NotAfter(ts + us, now) && ts != [] && i < j < |Run(ts).invitations|
    requires var invs, at := Run(ts).invitations, ts[|ts| - 1].now;
             && invs[j].usedAt.None? && IsUnused(invs[i], invs[j].business, invs[j].email)
             && IsExpired(invs[i], at) && IsExpired(invs[j], at)
             && invs[j].email == Normalized(raw)
    ensures !DoInvite(Run(ts + us), user, Run(ts).invitations[j].business, raw, role, now).Ok?
  {
    StaleStays(ts, us, i);
    StaleStays(ts, us, j);
    var invs := Run(ts + us).invitations;
    UnusedAtLeast(invs, i, invs[j].business, invs[j].email);
  }

  /** Inviting for an address that has no unused invitation leaves exactly one, which bars the
      address for seven days. */
  lemma InvitedOnce(db: Db, owner: nat, business: nat, raw: string, role: Role, now: int)
    requires DoInvite(db, owner, business, raw, role, now).Ok?
    ensures var db' := DoInvite(db, owner, business, raw, role, now).db;
            && db'.emails == db.emails && db'.businesses == db.businesses && db'.members == db.members
            && db'.invitations ==
               db.invitations + [Invitation(business, Normalized(raw), role, now + INVITATION_TICKS, None)]
            && UnusedCount(db'.invitations, business, Normalized(raw)) ==
               UnusedCount(db.invitations, business, Normalized(raw)) + 1
  {
    var db' := DoInvite(db, owner, business, raw, role, now).db;
    assert db'.invitations[..|db.invitations|] == db.invitations;
  }

  /** What the lookup finds after one invitation, and after two. */
  lemma InvitedAgain(db: Db, owner: nat, business: nat, raw: string, role: Role, now: int, later: int)
    requires Announced(db) && DoInvite(db, owner, business, raw, role, now).Ok?
    requires UnusedCount(db.invitations, business, Normalized(raw)) == 0 && later > now + INVITATION_TICKS
    ensures var db' := DoInvite(db, owner, business, raw, role, now).db;
            var second := DoInvite(db', owner, business, raw, role, later);
            second.Ok? && UnusedCount(second.db.invitations, business, Normalized(raw)) == 2
  {
    var db' := DoInvite(db, owner, business, raw, role, now).db;
    var n := |db.invitations|;
    InvitedOnce(db, owner, business, raw, role, now);
    assert FindUnused(db'.invitations, business, Normalized(raw)) == n;
    assert Event(MemberInvited(n + 1), None) !in db'.outbox;
    InvitedOnce(db', owner, business, raw, role, later);
  }

  lemma InvitedTooOften(db: Db, owner: nat, business: nat, raw: string, role: Role, now: int)
    requires OwnerFailure(db, owner, business).None?
    requires Normalized(raw) in db.emails ==>
               FindMember(db.members, FindUser(db.emails, Normalized(raw)), business) < 0
    requires UnusedCount(db.invitations, business, Normalized(raw)) > 1
    ensures DoInvite(db, owner, business, raw, role, now) == Err(MultipleResults)
  {
  }

  /** The block is reached from every state in which an address without an invitation is invited:
      once that invitation has expired a second one is let through, and no third ever. */
  lemma TwoInvitationsGoStale(ts: seq<Timed>, owner: nat, business: nat, raw: string, role: Role,
                              now: int, later: int, last: int)
    requires DoInvite(Run(ts), owner, business, raw, role, now).Ok?
    requires UnusedCount(Run(ts).invitations, business, Normalized(raw)) == 0 && later > now + INVITATION_TICKS
    ensures var once := ts + [Timed(Invite(owner, business, raw, role), now)];
            var twice := once + [Timed(Invite(owner, business, raw, role), later)];
            && DoInvite(Run(once), owner, business, raw, role, later).Ok?
            && DoInvite(Run(twice), owner, business, raw, role, last) == Err(MultipleResults)
  {
    var first := Timed(Invite(owner, business, raw, role), now);
    RunIsBacked(ts);
    InvitedThrice(Run(ts), owner, business, raw, role, now, later, last);
    InviteRuns(ts, owner, business, raw, role, now);
    InviteRuns(ts + [first], owner, business, raw, role, later);
  }

  lemma InviteRuns(ts: seq<Timed>, owner: nat, business: nat, raw: string, role: Role, now: int)
    requires DoInvite(Run(ts), owner, business, raw, role, now).Ok?
    ensures Run(ts + [Timed(Invite(owner, business, raw, role), now)])
         == DoInvite(Run(ts), owner, business, raw, role, now).db
  {
    RunOne(ts, Timed(Invite(owner, business, raw, role), now));
  }

  lemma InvitedThrice(db: Db, owner: nat, business: nat, raw: string, role: Role, now: int, later: int, last: int)
    requires Announced(db) && DoInvite(db, owner, business, raw, role, now).Ok?
    requires UnusedCount(db.invitations, business, Normalized(raw)) == 0 && later > now + INVITATION_TICKS
    ensures var second := DoInvite(DoInvite(db, owner, business, raw, role, now).db, owner, business, raw, role, later);
            second.Ok? && DoInvite(second.db, owner, business, raw, role, last) == Err(MultipleResults)
  {
    InvitedOnce(db, owner, business, raw, role, now);
    InvitedAgain(db, owner, business, raw, role, now, later);
    var db' := DoInvite(db, owner, business, raw, role, now).db;
    InvitedOnce(db', owner, business, raw, role, later);
    InvitedTooOften(DoInvite(db', owner, business, raw, role, later).db, owner, business, raw, role, last);
  }

  lemma RunOne(ts: seq<Timed>, t: Timed)
    ensures Run(ts + [t]) == After(Run(ts), t)
  {
    assert (ts + [t])[..|ts|] == ts;
  }

  /** A registered user founds a business. */
  function Founded(email: string, slug: string): Db {
    Db([email], [Business(slug, Pending)], [Member(0, 0, Owner, None)], [], [], [])
  }

  lemma FoundingRun(email: string, slug: string, now: int)
    ensures Run([Timed(Register(email), now), Timed(CreateBusiness(0, slug), now)]) == Founded(email, slug)
  {
    var none: seq<Timed>, register, create := [], Timed(Register(email), now), Timed(CreateBusiness(0, slug), now);
    RunSnoc(none, [register]);
    assert none + [register] == [register] && none + [register][..0] == none;
    assert Run([register]) == EMPTY.(emails := [email]);
    RunSnoc([register], [create]);
    assert [register] + [create] == [register, create] && [register] + [create][..0] == [register];
  }

  /** Such a state: a business just founded, and any address but the founder's. */
  lemma FounderMayInvite(email: string, slug: string, raw: string, role: Role, now: int)
    requires Normalized(raw) != email
    ensures DoInvite(Founded(email, slug), 0, 0, raw, role, now).Ok?
    ensures UnusedCount(Founded(email, slug).invitations, 0, Normalized(raw)) == 0
  {
    var members := [Member(0, 0, Owner, None)];
    assert IsLive(members[0], 0, 0) && members[..0] == [];
    assert FindMember(members, 0, 0) == 0;
    assert FindUser([email], Normalized(raw)) == -1;
  }

  lemma StepKeepsExpired(db: Db, t: Timed, i: nat)
    requires i < |db.invitations| && db.invitations[i].usedAt.None? && IsExpired(db.invitations[i], t.now)
    ensures i < |After(db, t).invitations| && After(db, t).invitations[i] == db.invitations[i]
  {
  }

  lemma {:induction false} StaleStays(ts: seq<Timed>, us: seq<Timed>, i: nat)
    requires Clocked(ts + us) && ts != [] && i < |Run(ts).invitations|
    requires Run(ts).invitations[i].usedAt.None? && IsExpired(Run(ts).invitations[i], ts[|ts| - 1].now)
    ensures i < |Run(ts + us).invitations| && Run(ts + us).invitations[i] == Run(ts).invitations[i]
  {
    if us == [] {
      assert ts + us == ts;
    } else {
      var n := |us| - 1;
      assert (ts + us)[..|ts + us| - 1] == ts + us[..n];
      PrefixIsClocked(ts + us, |ts| + n);
      RunSnoc(ts, us);
      StaleStays(ts, us[..n], i);
      assert (ts + us)[|ts| - 1].now <= (ts + us)[|ts| + n].now;
      StepKeepsExpired(Run(ts + us[..n]), us[n], i);
    }
  }

  lemma PrefixIsClocked(ts: seq<Timed>, n: nat)
    requires Clocked(ts) && n <= |ts|
    ensures Clocked(ts[..n])
  {
  }

  // ---- The status trail ----

  /** Replays the status events of one business from pending; None when they do not connect. */
  function Replay(outbox: seq<Event>, business: nat): Option<Status> {
    if outbox == [] then Some(Pending) else
      var before := Replay(outbox[..|outbox| - 1], business);
      var body := outbox[|outbox| - 1].body;
      if !body.StatusChanged? || body.business != business then before
      else if before == Some(body.previous) && Allowed(body.previous, body.next) then Some(body.next)
      else None
  }

  lemma ReplaySnoc(outbox: seq<Event>, e: Event, business: nat)
    ensures Replay(outbox + [e], business) ==
            if !e.body.StatusChanged? || e.body.business != business then Replay(outbox, business)
            else if Replay(outbox, business) == Some(e.body.previous) && Allowed(e.body.previous, e.body.next)
            then Some(e.body.next) else None
  {
    assert (outbox + [e])[..|outbox|] == outbox;
  }

  lemma {:induction false} NoEventsYet(outbox: seq<Event>, business: nat)
    requires forall e :: e in outbox && e.body.StatusChanged? ==> e.body.business != business
    ensures Replay(outbox, business) == Some(Pending)
  {
    if outbox != [] {
      assert outbox[|outbox| - 1] in outbox;
      NoEventsYet(outbox[..|outbox| - 1], business);
    }
  }

  ghost predicate Trailed(db: Db) {
    && (forall b: nat :: b < |db.businesses| ==> Replay(db.outbox, b) == Some(db.businesses[b].status))
    && (forall e :: e in db.outbox && e.body.StatusChanged? ==> e.body.business < |db.businesses|)
    && (forall i, j :: 0 <= i < j < |db.outbox| ==> db.outbox[i] != db.outbox[j])
  }

  /** What a request does to the statuses and their trail: at most one event, one new business or
      one allowed status change. */
  ghost predicate Trails(db: Db, db': Db, now: int) {
    || (db'.businesses == db.businesses && db'.outbox == db.outbox)
    || (db'.outbox == db.outbox && exists slug :: db'.businesses == db.businesses + [Business(slug, Pending)])
    || (exists e :: e !in db.outbox && db'.outbox == db.outbox + [e] && Reports(db, db', e, now))
  }

  predicate Reports(db: Db, db': Db, e: Event, now: int) {
    if !e.body.StatusChanged? then db'.businesses == db.businesses
    else
      var b := e.body.business;
      && e.second == Some(Second(now))
      && b < |db.businesses| && db.businesses[b].status == e.body.previous && Allowed(e.body.previous, e.body.next)
      && db'.businesses == db.businesses[b := db.businesses[b].(status := e.body.next)]
  }

  lemma StepTrails(db: Db, t: Timed)
    ensures Trails(db, After(db, t), t.now)
  {
    match t.req
    case Register(_) =>
    case CreateBusiness(_, _) =>
    case Transition(_, _, _) =>
    case AddMember(_, _, _, _) =>
    case RemoveMember(_, _, _) =>
    case Invite(_, _, _, _) =>
    case ChangeRole(_, _, _, _) =>
    case Accept(_, _) =>
  }

  lemma ReportKeepsTrail(db: Db, db': Db, e: Event, now: int)
    requires Trailed(db) && e !in db.outbox && db'.outbox == db.outbox + [e] && Reports(db, db', e, now)
    ensures Trailed(db')
  {
    forall b: nat | b < |db'.businesses| ensures Replay(db'.outbox, b) == Some(db'.businesses[b].status) {
      ReplaySnoc(db.outbox, e, b);
    }
  }

  lemma StepKeepsTrail(db: Db, t: Timed)
    requires Trailed(db)
    ensures Trailed(After(db, t))
  {
    var db' := After(db, t);
    StepTrails(db, t);
    if db'.outbox == db.outbox {
      if |db'.businesses| > |db.businesses| { NoEventsYet(db.outbox, |db.businesses|); }
    } else {
      var e :| e !in db.outbox && db'.outbox == db.outbox + [e] && Reports(db, db', e, t.now);
      ReportKeepsTrail(db, db', e, t.now);
    }
  }

  /** After every run, aborted requests included, the committed status events of each business
      form an unbroken path of allowed steps from pending to its present status, and no two
      events share an idempotency key. */
  lemma {:induction false} StatusTrailReplays(ts: seq<Timed>)
    ensures Trailed(Run(ts))
  {
    if ts != [] {
      StatusTrailReplays(ts[..|ts| - 1]);
      StepKeepsTrail(Run(ts[..|ts| - 1]), ts[|ts| - 1]);
    }
  }

  /** The run took this business through this step within this second. */
  predicate Stepped(ts: seq<Timed>, business: nat, previous: Status, next: Status, second: int) {
    && ts != []
    && var n := |ts| - 1;
       || Stepped(ts[..n], business, previous, next, second)
       || (Second(ts[n].now) == second && Changed(Run(ts[..n]), Run(ts), business, previous, next))
  }

  predicate Changed(db: Db, db': Db, business: nat, previous: Status, next: Status) {
    && business < |db.businesses| && business < |db'.businesses|
    && db.businesses[business].status == previous && db'.businesses[business].status == next && previous != next
  }

  /** One request reports a status change, with its second, exactly when it makes it. */
  lemma StepReports(db: Db, t: Timed, business: nat, previous: Status, next: Status, second: int)
    ensures var db', e := After(db, t), Event(StatusChanged(business, previous, next), Some(second));
            e in db'.outbox <==>
            e in db.outbox || (Second(t.now) == second && Changed(db, db', business, previous, next))
  {
    var db' := After(db, t);
    StepTrails(db, t);
    if db'.outbox != db.outbox {
      var e :| e !in db.outbox && db'.outbox == db.outbox + [e] && Reports(db, db', e, t.now);
      assert forall f :: f in db'.outbox <==> f in db.outbox || f == e;
    }
  }

  /** The recorded status changes are those the run made. */
  lemma {:induction false} RecordedIffStepped(ts: seq<Timed>, business: nat, previous: Status, next: Status,
                                              second: int)
    ensures Event(StatusChanged(business, previous, next), Some(second)) in Run(ts).outbox <==>
            Stepped(ts, business, previous, next, second)
  {
    if ts != [] {
      RecordedIffStepped(ts[..|ts| - 1], business, previous, next, second);
      StepReports(Run(ts[..|ts| - 1]), ts[|ts| - 1], business, previous, next, second);
    }
  }

  /** Pending is never entered again, and deactivated never left: of the recorded steps of a
      business none is out of its present state pending, and none into deactivated unless it is. */
  ghost predicate OneWay(db: Db) {
    forall e :: e in db.outbox && e.body.StatusChanged? ==>
      && e.body.business < |db.businesses|
      && db.businesses[e.body.business].status != Pending
      && (e.body.next == Deactivated ==> db.businesses[e.body.business].status == Deactivated)
  }

  lemma StepKeepsOneWay(db: Db, t: Timed)
    requires OneWay(db)
    ensures OneWay(After(db, t))
  {
    var db' := After(db, t);
    StepTrails(db, t);
    if db'.outbox != db.outbox {
      var e :| e !in db.outbox && db'.outbox == db.outbox + [e] && Reports(db, db', e, t.now);
    }
  }

  lemma {:induction false} RunIsOneWay(ts: seq<Timed>)
    ensures OneWay(Run(ts))
  {
    if ts != [] {
      RunIsOneWay(ts[..|ts| - 1]);
      StepKeepsOneWay(Run(ts[..|ts| - 1]), ts[|ts| - 1]);
    }
  }

  /** Suspending and resuming, the only steps a business can take more than once. */
  predicate IsPause(previous: Status, next: Status) {
    (previous == Active && next == Suspended) || (previous == Suspended && next == Active)
  }

  /** After every run, a transition succeeds iff an owner asks for an allowed step, unless it is a
      suspension or resumption that the run has already made within the same second. It then
      changes that status alone; refused or aborted, it changes nothing. */
  lemma TransitionSucceedsIff(ts: seq<Timed>, user: nat, business: nat, target: Status, now: int)
    ensures var db := Run(ts);
            var r := DoTransition(db, user, business, target, now);
            && (r.Ok? <==>
                  && OwnerFailure(db, user, business).None?
                  && Allowed(db.businesses[business].status, target)
                  && !(IsPause(db.businesses[business].status, target)
                       && Stepped(ts, business, db.businesses[business].status, target, Second(now))))
            && (r.Ok? ==> r.db.businesses == db.businesses[business := Business(db.businesses[business].slug, target)]
                          && r.db.members == db.members && r.db.invitations == db.invitations)
            && (!r.Ok? ==> Run(ts + [Timed(Transition(user, business, target), now)]) == db)
  {
    var db, t := Run(ts), Timed(Transition(user, business, target), now);
    assert (ts + [t])[..|ts|] == ts;
    if OwnerFailure(db, user, business).None? {
      var current := db.businesses[business].status;
      RunIsOneWay(ts);
      RecordedIffStepped(ts, business, current, target, Second(now));
    }
  }

  /** The exception occurs from every active business: suspended and resumed, it cannot be
      suspended again before the second is over. */
  lemma SecondSuspensionAborts(ts: seq<Timed>, user: nat, business: nat, now: int)
    requires OwnerFailure(Run(ts), user, business).None? && Run(ts).businesses[business].status == Active
    requires !Stepped(ts, business, Active, Suspended, Second(now))
    requires !Stepped(ts, business, Suspended, Active, Second(now))
    ensures var once := ts + [Timed(Transition(user, business, Suspended), now)];
            var twice := once + [Timed(Transition(user, business, Active), now)];
            && business < |Run(twice).businesses| && Run(twice).businesses[business].status == Active
            && DoTransition(Run(twice), user, business, Suspended, now) == Err(IntegrityError)
  {
    var suspend := Timed(Transition(user, business, Suspended), now);
    var resume := Timed(Transition(user, business, Active), now);
    var once := ts + [suspend];
    var twice := once + [resume];
    assert once[..|ts|] == ts && twice[..|once|] == once;
    TransitionSucceedsIff(ts, user, business, Suspended, now);
    RecordedIffStepped(ts, business, Suspended, Active, Second(now));
    assert Event(StatusChanged(business, Active, Suspended), Some(Second(now))) in Run(once).outbox;
  }

  lemma StepKeepsDeactivated(db: Db, t: Timed, business: nat)
    requires business < |db.businesses| && db.businesses[business].status == Deactivated
    ensures business < |After(db, t).businesses| && After(db, t).businesses[business] == db.businesses[business]
  {
    StepTrails(db, t);
  }

  /** Deactivation is terminal over every continuation of every run. */
  lemma {:induction false} DeactivatedIsFinal(ts: seq<Timed>, us: seq<Timed>, business: nat)
    requires business < |Run(ts).businesses| && Run(ts).businesses[business].status == Deactivated
    ensures business < |Run(ts + us).businesses| && Run(ts + us).businesses[business] == Run(ts).businesses[business]
  {
    if us == [] {
      assert ts + us == ts;
    } else {
      DeactivatedIsFinal(ts, us[..|us| - 1], business);
      StepKeepsDeactivated(Run(ts + us[..|us| - 1]), us[|us| - 1], business);
      RunSnoc(ts, us);
    }
  }
}
