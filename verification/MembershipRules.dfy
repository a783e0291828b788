/** The rules of membership requests, over every run, in terms of rows alone: who may do what, when
    it is refused, and the rows that it leaves. */
module MembershipRules {
  import opened Basics
  import opened Text
  import opened Membership
  import opened MembershipRuns

  // ---- Addresses ----

  /** Blanks, tabs and line ends. */
  predicate IsBlank(s: string) {
    forall i :: 0 <= i < |s| ==> s[i] == ' ' || s[i] == '\t' || s[i] == '\n' || s[i] == '\r'
  }

  /** ASCII characters without blanks and controls. */
  predicate IsVisible(s: string) {
    s != "" && forall i :: 0 <= i < |s| ==> 0x21 <= s[i] as int <= 0x7E
  }

  /** The same text in small letters. */
  predicate IsSmallOf(small: string, s: string) {
    && |small| == |s|
    && forall i :: 0 <= i < |s| ==>
         if 'A' <= s[i] <= 'Z' then small[i] as int - 'a' as int == s[i] as int - 'A' as int else small[i] == s[i]
  }

  lemma {:induction false} LeftBlankGoes(blank: string, s: string)
    requires IsBlank(blank) && (s != "" ==> 0x21 <= s[0] as int <= 0x7E)
    ensures TrimLeft(blank + s, IsSpace) == s
  {
    if blank == "" {
      assert blank + s == s;
    } else {
      assert (blank + s)[1..] == blank[1..] + s;
      LeftBlankGoes(blank[1..], s);
    }
  }

  lemma {:induction false} RightBlankGoes(s: string, blank: string)
    requires IsBlank(blank) && IsVisible(s)
    ensures TrimRight(s + blank, IsSpace) == s
  {
    if blank == "" {
      assert s + blank == s;
    } else {
      var n := |blank| - 1;
      assert (s + blank)[..|s + blank| - 1] == s + blank[..n];
      assert (s + blank)[|s + blank| - 1] == blank[n];
      RightBlankGoes(s, blank[..n]);
    }
  }

  lemma {:induction false} SmallIsLower(small: string, s: string)
    requires IsSmallOf(small, s) && forall i :: 0 <= i < |s| ==> 0x21 <= s[i] as int <= 0x7E
    ensures Lower(s) == small
  {
    if s != "" {
      SmallIsLower(small[1..], s[1..]);
      assert [small[0]] + small[1..] == small;
    }
  }

  /** An address is kept in small letters and without its margins. */
  lemma AddressIsNormalized(left: string, address: string, right: string, small: string)
    requires IsBlank(left) && IsBlank(right) && IsVisible(address) && IsSmallOf(small, address)
    ensures Normalized(left + address + right) == small
  {
    assert left + address + right == left + (address + right);
    LeftBlankGoes(left, address + right);
    RightBlankGoes(address, right);
    SmallIsLower(small, address);
  }

  // ---- Nothing is handed out twice ----

  /** No two businesses have the same slug, and no two accounts the same address. */
  ghost predicate Unique(db: Db) {
    && (forall i, j :: 0 <= i < j < |db.businesses| ==> db.businesses[i].slug != db.businesses[j].slug)
    && (forall i, j :: 0 <= i < j < |db.emails| ==> db.emails[i] != db.emails[j])
  }

  lemma RegisterKeepsUnique(db: Db, email: string)
    requires Unique(db)
    ensures Unique(Settle(db, DoRegister(db, email)))
  {
    if email !in db.emails {
      var emails := db.emails + [email];
      forall i, j | 0 <= i < j < |emails| ensures emails[i] != emails[j] {
        assert emails[i] == db.emails[i];
      }
    }
  }

  lemma StepKeepsUnique(db: Db, t: Timed)
    requires Unique(db)
    ensures Unique(After(db, t))
  {
    if t.req.Register? {
      RegisterKeepsUnique(db, t.req.email);
    } else if t.req.CreateBusiness? {
      assert DoCreate(db, t.req.user, t.req.slug).Ok? ==> !SlugTaken(db.businesses, t.req.slug);
    } else {
      StepTrails(db, t);
      OthersFoundNothing(db, t);
    }
  }

  lemma OthersFoundNothing(db: Db, t: Timed)
    requires !t.req.Register? && !t.req.CreateBusiness?
    ensures |After(db, t).businesses| == |db.businesses| && After(db, t).emails == db.emails
    ensures forall i :: 0 <= i < |db.businesses| ==> After(db, t).businesses[i].slug == db.businesses[i].slug
  {
    match t.req
    case Transition(_, _, _) =>
    case AddMember(_, _, _, _) =>
    case RemoveMember(_, _, _) =>
    case Invite(_, _, _, _) =>
    case ChangeRole(_, _, _, _) =>
    case Accept(_, _) =>
  }

  /** After every run slugs and addresses identify businesses and accounts. */
  lemma {:induction false} SlugsAndAddressesAreUnique(ts: seq<Timed>)
    ensures Unique(Run(ts))
  {
    if ts != [] {
      SlugsAndAddressesAreUnique(ts[..|ts| - 1]);
      StepKeepsUnique(Run(ts[..|ts| - 1]), ts[|ts| - 1]);
    }
  }

  // ---- Who may act ----

  /** The user is registered and has a live owner's row in the business. */
  predicate MayManage(db: Db, user: nat, business: nat) {
    user < |db.emails| && Member(user, business, Owner, None) in db.members
  }

  /** The row of a present member of the business. */
  predicate IsPresent(db: Db, member: nat, business: nat) {
    member < |db.members| && db.members[member].business == business && db.members[member].deletedAt == None
  }

  /** A row of this user in this business, live or not. */
  predicate HasRow(db: Db, user: nat, business: nat) {
    exists i :: 0 <= i < |db.members| && db.members[i].user == user && db.members[i].business == business
  }

  lemma RowOfIs(db: Db, user: nat, business: nat)
    ensures HasRow(db, user, business) <==> RowExists(db.members, user, business)
    ensures FindMember(db.members, user, business) >= 0 ==> HasRow(db, user, business)
  {
    LiveRowIsRow(db.members, user, business);
  }

  lemma OwnRowIsFound(db: Db, user: nat, business: nat, i: nat)
    requires Owned(db) && i < |db.members| && db.members[i] == Member(user, business, Owner, None)
    ensures FindMember(db.members, user, business) == i
  {
  }

  /** Exactly a live owner passes the check in front of every management request. */
  lemma ManagersAreOwners(ts: seq<Timed>, user: nat, business: nat)
    ensures OwnerFailure(Run(ts), user, business) == None <==> MayManage(Run(ts), user, business)
  {
    var db := Run(ts);
    RunIsOwned(ts);
    if MayManage(db, user, business) {
      var i :| 0 <= i < |db.members| && db.members[i] == Member(user, business, Owner, None);
      OwnRowIsFound(db, user, business, i);
    }
    if OwnerFailure(db, user, business).None? {
      var i := FindMember(db.members, user, business);
      assert db.members[i] == Member(user, business, Owner, None);
    }
  }

  // ---- The requests ----

  /** Founding a business succeeds iff the user is registered and no business has the slug; it adds
      one pending business, whose only member is the founder as its owner. */
  lemma CreateSucceedsIff(ts: seq<Timed>, user: nat, slug: string, now: int)
    ensures var db, db' := Run(ts), Run(ts + [Timed(CreateBusiness(user, slug), now)]);
            var r := DoCreate(db, user, slug);
            && (r.Ok? <==>
                  user < |db.emails| && forall i :: 0 <= i < |db.businesses| ==> db.businesses[i].slug != slug)
            && (r.Ok? ==>
                  && db' == db.(businesses := db.businesses + [Business(slug, Pending)],
                                members := db.members + [Member(user, |db.businesses|, Owner, None)])
                  && forall i :: 0 <= i < |db.members| ==> db.members[i].business != |db.businesses|)
            && (!r.Ok? ==> db' == db && r == Err(if user < |db.emails| then Conflict else Unauthenticated))
  {
    var db := Run(ts);
    RunIsOwned(ts);
    RunOne(ts, Timed(CreateBusiness(user, slug), now));
    RowOfIs(db, user, |db.businesses|);
  }

  lemma AccountIsFound(db: Db, account: nat)
    requires Unique(db) && account < |db.emails|
    ensures FindUser(db.emails, db.emails[account]) == account
  {
  }

  /** Adding an account succeeds iff an owner asks and the account has no row in the business. */
  lemma AddAddsRow(ts: seq<Timed>, user: nat, business: nat, account: nat, role: Role, now: int)
    requires account < |Run(ts).emails|
    ensures var db, db' := Run(ts), Run(ts + [Timed(AddMember(user, business, Run(ts).emails[account], role), now)]);
            db' == if MayManage(db, user, business) && !HasRow(db, account, business) then
                     db.(members := db.members + [Member(account, business, role, None)])
                   else db
  {
    var db := Run(ts);
    SlugsAndAddressesAreUnique(ts);
    AccountIsFound(db, account);
    ManagersAreOwners(ts, user, business);
    RunOne(ts, Timed(AddMember(user, business, db.emails[account], role), now));
    RowOfIs(db, account, business);
  }

  /** An address without an account is never added. */
  lemma StrangersAreNotAdded(ts: seq<Timed>, user: nat, business: nat, email: string, role: Role, now: int)
    requires email !in Run(ts).emails
    ensures Run(ts + [Timed(AddMember(user, business, email, role), now)]) == Run(ts)
    ensures MayManage(Run(ts), user, business) ==> DoAdd(Run(ts), user, business, email, role) == Err(NotFound)
  {
    ManagersAreOwners(ts, user, business);
    RunOne(ts, Timed(AddMember(user, business, email, role), now));
  }

  /** Removing ends the membership iff an owner asks for the present membership of somebody else. */
  lemma RemoveEndsRow(ts: seq<Timed>, user: nat, business: nat, member: nat, now: int)
    ensures var db, db' := Run(ts), Run(ts + [Timed(RemoveMember(user, business, member), now)]);
            if MayManage(db, user, business) && IsPresent(db, member, business) && db.members[member].user != user then
              db' == db.(members := db.members[member := db.members[member].(deletedAt := Some(now))],
                         outbox := db.outbox + [Event(MemberRemoved(member), Some(now / 1_000_000))])
            else db' == db
  {
    ManagersAreOwners(ts, user, business);
    RemoveSucceedsIff(ts, user, business, member, now);
    RunOne(ts, Timed(RemoveMember(user, business, member), now));
  }

  /** Somebody else is a present owner too. */
  predicate HasOtherOwner(db: Db, member: nat, business: nat) {
    exists i :: 0 <= i < |db.members| && i != member && IsPresent(db, i, business) && db.members[i].role == Owner
  }

  /** A role is changed iff an owner asks for a present membership, the last owner does not step
      down, and the same change is not on file with the same second. */
  lemma ChangeRoleChangesRow(ts: seq<Timed>, user: nat, business: nat, member: nat, role: Role, now: int)
    ensures var db, db' := Run(ts), Run(ts + [Timed(ChangeRole(user, business, member, role), now)]);
            var event := Event(RoleChanged(member, role), Some(now / 1_000_000));
            if && MayManage(db, user, business) && IsPresent(db, member, business)
               && db.members[member].role != role && event !in db.outbox
               && (db.members[member].user == user ==> HasOtherOwner(db, member, business)) then
              db' == db.(members := db.members[member := db.members[member].(role := role)],
                         outbox := db.outbox + [event])
            else db' == db
  {
    var db := Run(ts);
    ManagersAreOwners(ts, user, business);
    RoleChangeSucceedsIff(ts, user, business, member, role, now);
    RunOne(ts, Timed(ChangeRole(user, business, member, role), now));
    OtherOwnerIs(db, member, business);
    if MayManage(db, user, business) && IsPresent(db, member, business) && db.members[member].user == user {
      RunIsOwned(ts);
      var i :| 0 <= i < |db.members| && db.members[i] == Member(user, business, Owner, None);
      assert i == member;
    }
    if db.members != [] && member < |db.members| && db.members[member].role == role {
      assert db.members[member := db.members[member].(role := role)] == db.members;
    }
  }

  lemma OtherOwnerIs(db: Db, member: nat, business: nat)
    ensures HasOtherOwner(db, member, business) <==>
            exists i :: 0 <= i < |db.members| && i != member && IsLiveOwner(db.members[i], business)
  {
    if i :| 0 <= i < |db.members| && i != member && IsLiveOwner(db.members[i], business) {
      assert IsPresent(db, i, business);
    }
    if HasOtherOwner(db, member, business) {
      var i :| 0 <= i < |db.members| && i != member && IsPresent(db, i, business) && db.members[i].role == Owner;
      assert IsLiveOwner(db.members[i], business);
    }
  }

  /** An invitation that has not been used. */
  predicate IsOpen(i: Invitation, business: nat, email: string) {
    i.business == business && i.email == email && i.usedAt == None
  }

  /** At most one unused invitation of the address to the business. */
  ghost predicate IsOpenOnce(invitations: seq<Invitation>, business: nat, email: string) {
    forall i, j :: 0 <= i < j < |invitations| && IsOpen(invitations[i], business, email) ==>
      !IsOpen(invitations[j], business, email)
  }

  ghost predicate HasPresentAddress(db: Db, business: nat, email: string) {
    exists i :: 0 <= i < |db.members| && IsPresent(db, i, business) && db.members[i].user < |db.emails|
                && db.emails[db.members[i].user] == email
  }

  /** The address is free: no present member of the business has it, and it has no usable and not
      two unused invitations to it. */
  ghost predicate IsInvitable(db: Db, business: nat, email: string, now: int) {
    && !HasPresentAddress(db, business, email)
    && IsOpenOnce(db.invitations, business, email)
    && (forall i :: 0 <= i < |db.invitations| && IsOpen(db.invitations[i], business, email) ==>
          db.invitations[i].expiresAt < now)
  }

  predicate IsOpenSomewhere(invitations: seq<Invitation>, business: nat, email: string) {
    exists i :: 0 <= i < |invitations| && IsOpen(invitations[i], business, email)
  }

  lemma OpenSnoc(before: seq<Invitation>, last: Invitation, all: seq<Invitation>, business: nat, email: string)
    requires all == before + [last]
    ensures IsOpenSomewhere(all, business, email) <==>
            IsOpenSomewhere(before, business, email) || IsOpen(last, business, email)
    ensures IsOpenOnce(all, business, email) <==>
            && IsOpenOnce(before, business, email)
            && !(IsOpen(last, business, email) && IsOpenSomewhere(before, business, email))
  {
    assert all[|before|] == last && forall i :: 0 <= i < |before| ==> all[i] == before[i];
    if IsOpenOnce(all, business, email) && IsOpenSomewhere(before, business, email) {
      var i :| 0 <= i < |before| && IsOpen(before[i], business, email);
      assert IsOpen(all[i], business, email) && !IsOpen(all[|before|], business, email);
    }
  }

  lemma {:induction false} OpenOnceIff(invitations: seq<Invitation>, business: nat, email: string)
    ensures UnusedCount(invitations, business, email) <= 1 <==> IsOpenOnce(invitations, business, email)
    ensures UnusedCount(invitations, business, email) == 0 <==> !IsOpenSomewhere(invitations, business, email)
  {
    if invitations != [] {
      var n := |invitations| - 1;
      OpenOnceIff(invitations[..n], business, email);
      OpenSnoc(invitations[..n], invitations[n], invitations, business, email);
    }
  }

  lemma PresentAddressIff(db: Db, business: nat, email: string)
    requires Unique(db)
    ensures (email in db.emails && FindMember(db.members, FindUser(db.emails, email), business) >= 0) <==>
            HasPresentAddress(db, business, email)
  {
    var k := FindUser(db.emails, email);
    if k >= 0 {
      var i := FindMember(db.members, k, business);
      assert i >= 0 ==> IsPresent(db, i, business) && db.members[i].user == k;
    }
  }

  /** An invitation is made iff an owner asks and the address, in small letters and without margins,
      is free; it is open for seven days. */
  lemma InviteAddsRow(ts: seq<Timed>, user: nat, business: nat, raw: string, role: Role, now: int)
    ensures var db, db' := Run(ts), Run(ts + [Timed(Invite(user, business, raw, role), now)]);
            var email := Normalized(raw);
            if MayManage(db, user, business) && IsInvitable(db, business, email, now) then
              db' == db.(invitations := db.invitations
                                        + [Invitation(business, email, role, now + 604_800_000_000, None)],
                         outbox := db.outbox + [Event(MemberInvited(|db.invitations|), None)])
            else db' == db
  {
    var db, email := Run(ts), Normalized(raw);
    ManagersAreOwners(ts, user, business);
    SlugsAndAddressesAreUnique(ts);
    InviteSucceedsIff(ts, user, business, raw, role, now);
    RunOne(ts, Timed(Invite(user, business, raw, role), now));
    OpenOnceIff(db.invitations, business, email);
    PresentAddressIff(db, business, email);
  }

  /** An invitation is accepted iff it is unused, not past its end, made out to the user's address,
      and the user has no row in the business. */
  lemma AcceptAddsRow(ts: seq<Timed>, user: nat, invitation: nat, now: int)
    ensures var db, db' := Run(ts), Run(ts + [Timed(Accept(user, invitation), now)]);
            if && user < |db.emails| && invitation < |db.invitations| && db.invitations[invitation].usedAt == None
               && now <= db.invitations[invitation].expiresAt
               && Normalized(db.emails[user]) == db.invitations[invitation].email
               && !HasRow(db, user, db.invitations[invitation].business) then
              var i := db.invitations[invitation];
              db' == db.(members := db.members + [Member(user, i.business, i.role, None)],
                         invitations := db.invitations[invitation := i.(usedAt := Some(now))],
                         acceptances := db.acceptances + [Acceptance(invitation, |db.members|, i.role)],
                         outbox := db.outbox + [Event(MemberAccepted(invitation), None)])
            else db' == db
  {
    var db := Run(ts);
    RunIsBacked(ts);
    AcceptIff(db, user, invitation, now);
    RunOne(ts, Timed(Accept(user, invitation), now));
    if invitation < |db.invitations| { RowOfIs(db, user, db.invitations[invitation].business); }
  }

  // ---- The lifecycle ----

  /** The steps of a business. */
  predicate MayStep(status: Status, target: Status) {
    || (status == Pending && (target == Active || target == Deactivated))
    || (status == Active && (target == Suspended || target == Deactivated))
    || (status == Suspended && (target == Active || target == Deactivated))
  }

  /** A status changes iff an owner asks for one of these steps, and the same step is not on file
      with the same second. */
  lemma TransitionChangesStatus(ts: seq<Timed>, user: nat, business: nat, target: Status, now: int)
    ensures var db, db' := Run(ts), Run(ts + [Timed(Transition(user, business, target), now)]);
            if && MayManage(db, user, business) && business < |db.businesses|
               && MayStep(db.businesses[business].status, target)
               && Event(StatusChanged(business, db.businesses[business].status, target), Some(now / 1_000_000))
                  !in db.outbox then
              var b := db.businesses[business];
              db' == db.(businesses := db.businesses[business := Business(b.slug, target)],
                         outbox := db.outbox
                                   + [Event(StatusChanged(business, b.status, target), Some(now / 1_000_000))])
            else db' == db
  {
    ManagersAreOwners(ts, user, business);
    RunOne(ts, Timed(Transition(user, business, target), now));
  }

  lemma FounderSteps(ts: seq<Timed>, target: Status, now: int, email: string, slug: string, status: Status)
    requires Run(ts).emails == [email] && Run(ts).members == [Member(0, 0, Owner, None)]
    requires Run(ts).businesses == [Business(slug, status)] && MayStep(status, target)
    requires forall e :: e in Run(ts).outbox && e.second.Some? ==> e.second.value < now / 1_000_000
    ensures var db := Run(ts + [Timed(Transition(0, 0, target), now)]);
            && db.emails == [email] && db.members == [Member(0, 0, Owner, None)]
            && db.businesses == [Business(slug, target)]
            && forall e :: e in db.outbox && e.second.Some? ==> e.second.value < (now + 1_000_000) / 1_000_000
  {
    TransitionChangesStatus(ts, 0, 0, target, now);
    assert Member(0, 0, Owner, None) in Run(ts).members;
  }

  /** From its foundation on, a business takes every kind of step, here a second apart. */
  lemma LifecycleRuns(email: string, slug: string, now: int)
    ensures var founded := [Timed(Register(email), now), Timed(CreateBusiness(0, slug), now)];
            var activated := founded + [Timed(Transition(0, 0, Active), now)];
            var suspended := activated + [Timed(Transition(0, 0, Suspended), now + 1_000_000)];
            var resumed := suspended + [Timed(Transition(0, 0, Active), now + 2_000_000)];
            var again := resumed + [Timed(Transition(0, 0, Suspended), now + 3_000_000)];
            && Run(founded).businesses == [Business(slug, Pending)]
            && Run(activated).businesses == [Business(slug, Active)]
            && Run(suspended).businesses == [Business(slug, Suspended)]
            && Run(resumed).businesses == [Business(slug, Active)]
            && Run(again).businesses == [Business(slug, Suspended)]
            && Run(founded + [Timed(Transition(0, 0, Deactivated), now)]).businesses == [Business(slug, Deactivated)]
            && Run(resumed + [Timed(Transition(0, 0, Deactivated), now + 3_000_000)]).businesses
               == [Business(slug, Deactivated)]
            && Run(again + [Timed(Transition(0, 0, Deactivated), now + 4_000_000)]).businesses
               == [Business(slug, Deactivated)]
  {
    var founded := [Timed(Register(email), now), Timed(CreateBusiness(0, slug), now)];
    FoundingRun(email, slug, now);
    PausesRun(founded, email, slug, now);
    FounderSteps(founded, Deactivated, now, email, slug, Pending);
  }

  lemma PausesRun(founded: seq<Timed>, email: string, slug: string, now: int)
    requires Run(founded) == Founded(email, slug)
    ensures var activated := founded + [Timed(Transition(0, 0, Active), now)];
            var suspended := activated + [Timed(Transition(0, 0, Suspended), now + 1_000_000)];
            var resumed := suspended + [Timed(Transition(0, 0, Active), now + 2_000_000)];
            var again := resumed + [Timed(Transition(0, 0, Suspended), now + 3_000_000)];
            && Run(activated).businesses == [Business(slug, Active)]
            && Run(suspended).businesses == [Business(slug, Suspended)]
            && Run(resumed).businesses == [Business(slug, Active)]
            && Run(again).businesses == [Business(slug, Suspended)]
            && Run(resumed + [Timed(Transition(0, 0, Deactivated), now + 3_000_000)]).businesses
               == [Business(slug, Deactivated)]
            && Run(again + [Timed(Transition(0, 0, Deactivated), now + 4_000_000)]).businesses
               == [Business(slug, Deactivated)]
  {
    var activated := founded + [Timed(Transition(0, 0, Active), now)];
    var suspended := activated + [Timed(Transition(0, 0, Suspended), now + 1_000_000)];
    var resumed := suspended + [Timed(Transition(0, 0, Active), now + 2_000_000)];
    var again := resumed + [Timed(Transition(0, 0, Suspended), now + 3_000_000)];
    FounderSteps(founded, Active, now, email, slug, Pending);
    FounderSteps(activated, Suspended, now + 1_000_000, email, slug, Active);
    FounderSteps(suspended, Active, now + 2_000_000, email, slug, Suspended);
    FounderSteps(resumed, Suspended, now + 3_000_000, email, slug, Active);
    FounderSteps(resumed, Deactivated, now + 3_000_000, email, slug, Active);
    FounderSteps(again, Deactivated, now + 4_000_000, email, slug, Suspended);
  }

  // ---- How requests are refused ----

  /** The check in front of the management requests, and the registration of a known address. */
  lemma StrangersAreRefused(ts: seq<Timed>, user: nat, business: nat)
    ensures var db := Run(ts);
            OwnerFailure(db, user, business) ==
            if user >= |db.emails| then Some(Unauthenticated)
            else if business >= |db.businesses| then Some(NotFound)
            else if Member(user, business, Owner, None) !in db.members then Some(NotAuthorized)
            else None
  {
    ManagersAreOwners(ts, user, business);
  }

  lemma RegisterAddsAccount(ts: seq<Timed>, email: string, now: int)
    ensures var db, db' := Run(ts), Run(ts + [Timed(Register(email), now)]);
            && (email in db.emails ==> db' == db && DoRegister(db, email) == Err(Conflict))
            && (email !in db.emails ==> db' == db.(emails := db.emails + [email]))
  {
    RunOne(ts, Timed(Register(email), now));
  }

  /** Why an owner's request is refused. */
  lemma OwnersAreRefused(ts: seq<Timed>, user: nat, business: nat, member: nat, role: Role, target: Status, now: int)
    requires MayManage(Run(ts), user, business)
    ensures var db := Run(ts);
            && (DoRemove(db, user, business, member, now) == Err(NotFound) <==> !IsPresent(db, member, business))
            && (DoRemove(db, user, business, member, now) == Err(SelfRemoval) <==>
                  IsPresent(db, member, business) && db.members[member].user == user)
            && (DoChangeRole(db, user, business, member, role, now) == Err(NotFound) <==>
                  !IsPresent(db, member, business))
            && (DoChangeRole(db, user, business, member, role, now) == Err(LastOwner) <==>
                  && IsPresent(db, member, business) && db.members[member].user == user && role != Owner
                  && !HasOtherOwner(db, member, business))
            && business < |db.businesses|
            && (DoTransition(db, user, business, target, now) == Err(BadTransition) <==>
                  !MayStep(db.businesses[business].status, target))
  {
    ManagersAreOwners(ts, user, business);
    DemotionHitsLastOwnerIff(ts, user, business, member, role, now);
    OtherOwnerIs(Run(ts), member, business);
  }

  /** Why an addition by an owner is refused. */
  lemma AdditionIsRefused(ts: seq<Timed>, user: nat, business: nat, account: nat, role: Role)
    requires MayManage(Run(ts), user, business) && account < |Run(ts).emails|
    ensures var db, r := Run(ts), DoAdd(Run(ts), user, business, Run(ts).emails[account], role);
            && (r == Err(Conflict) <==>
                  exists i :: 0 <= i < |db.members| && IsPresent(db, i, business) && db.members[i].user == account)
            && (!r.Ok? ==> r == Err(Conflict) || r == Err(IntegrityError))
  {
    var db := Run(ts);
    ManagersAreOwners(ts, user, business);
    SlugsAndAddressesAreUnique(ts);
    AccountIsFound(db, account);
    var found := FindMember(db.members, account, business);
    assert found >= 0 ==> IsPresent(db, found, business) && db.members[found].user == account;
  }

  /** Why an invitation by an owner is refused. */
  lemma InvitationIsRefused(ts: seq<Timed>, user: nat, business: nat, raw: string, role: Role, now: int)
    requires MayManage(Run(ts), user, business)
    ensures var db, r := Run(ts), DoInvite(Run(ts), user, business, raw, role, now);
            && (r == Err(MultipleResults) <==>
                  && !HasPresentAddress(db, business, Normalized(raw))
                  && !IsOpenOnce(db.invitations, business, Normalized(raw)))
            && (!r.Ok? ==> r == Err(MultipleResults) || r == Err(Conflict))
  {
    var db := Run(ts);
    ManagersAreOwners(ts, user, business);
    SlugsAndAddressesAreUnique(ts);
    RunIsBacked(ts);
    OpenOnceIff(db.invitations, business, Normalized(raw));
    PresentAddressIff(db, business, Normalized(raw));
  }

  /** Why an acceptance is refused. */
  lemma AcceptanceIsRefused(ts: seq<Timed>, user: nat, invitation: nat, now: int)
    requires user < |Run(ts).emails|
    ensures var db, r := Run(ts), DoAccept(Run(ts), user, invitation, now);
            && (r == Err(NotFound) <==> invitation >= |db.invitations|)
            && (r == Err(Invalid) <==>
                  && invitation < |db.invitations|
                  && (db.invitations[invitation].usedAt != None || db.invitations[invitation].expiresAt < now))
            && (r == Err(NotAuthorized) <==>
                  && invitation < |db.invitations| && db.invitations[invitation].usedAt == None
                  && now <= db.invitations[invitation].expiresAt
                  && Normalized(db.emails[user]) != db.invitations[invitation].email)
  {
  }
}
