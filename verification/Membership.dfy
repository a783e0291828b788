/** Businesses, members, invitations and lifecycle of backend/app/api/v1/businesses.py. Each
    request is one serial transaction: it commits as a whole or leaves nothing. A row's id is
    its position in its table. */
module Membership {
  import opened Basics
  import opened Text

  datatype Role = Owner | Admin | Staff

  datatype Status = Pending | Active | Suspended | Deactivated

  datatype Business = Business(slug: string, status: Status)

  datatype Member = Member(user: nat, business: nat, role: Role, deletedAt: Option<int>)

  datatype Invitation = Invitation(business: nat, email: string, role: Role, expiresAt: int, usedAt: Option<int>)

  /** What an outbox event reports: exactly the parts that go into its idempotency key. */
  datatype Body =
    | StatusChanged(business: nat, previous: Status, next: Status)
    | MemberRemoved(member: nat)
    | MemberInvited(invitation: nat)
    | RoleChanged(member: nat, role: Role)
    | MemberAccepted(invitation: nat)

  /** The key is the body plus, where the code puts one in, the second of the request. */
  datatype Event = Event(body: Body, second: Option<int>)

  /** Kept for the statements only: which membership an acceptance created, with which role. */
  datatype Acceptance = Acceptance(invitation: nat, member: nat, role: Role)

  datatype Db = Db(
    emails: seq<string>,
    businesses: seq<Business>,
    members: seq<Member>,
    invitations: seq<Invitation>,
    outbox: seq<Event>,
    acceptances: seq<Acceptance>)

  datatype Failure =
    | Unauthenticated | NotFound | NotAuthorized | Conflict | Invalid | BadTransition
    | SelfRemoval | LastOwner
    | IntegrityError | MultipleResults

  datatype Result = Ok(db: Db) | Err(why: Failure)

  datatype Request =
    | Register(email: string)
    | CreateBusiness(user: nat, slug: string)
    | Transition(user: nat, business: nat, target: Status)
    | AddMember(user: nat, business: nat, email: string, role: Role)
    | RemoveMember(user: nat, business: nat, member: nat)
    | Invite(user: nat, business: nat, email: string, role: Role)
    | ChangeRole(user: nat, business: nat, member: nat, role: Role)
    | Accept(user: nat, invitation: nat)

  const TICKS_PER_SECOND := 1_000_000
  const INVITATION_TICKS := 7 * 24 * 3600 * TICKS_PER_SECOND

  function Second(now: int): int {
    now / TICKS_PER_SECOND
  }

  function Level(r: Role): int {
    match r case Owner => 3 case Admin => 2 case Staff => 1
  }

  /** BUSINESS_TRANSITIONS of backend/app/domain/common/enums.py. */
  predicate Allowed(current: Status, target: Status) {
    match current
    case Pending => target == Active || target == Deactivated
    case Active => target == Suspended || target == Deactivated
    case Suspended => target == Active || target == Deactivated
    case Deactivated => false
  }

  function Normalized(email: string): string {
    Lower(Strip(email))
  }

  // ---- Queries ----

  predicate IsLive(m: Member, user: nat, business: nat) {
    m.user == user && m.business == business && m.deletedAt.None?
  }

  /** The live membership, -1 when there is none. */
  function FindMember(members: seq<Member>, user: nat, business: nat): (i: int)
    ensures -1 <= i < |members|
    ensures i >= 0 ==> IsLive(members[i], user, business)
    ensures i < 0 ==> forall j :: 0 <= j < |members| ==> !IsLive(members[j], user, business)
  {
    if members == [] then -1
    else if IsLive(members[|members| - 1], user, business) then |members| - 1
    else FindMember(members[..|members| - 1], user, business)
  }

  function FindUser(emails: seq<string>, email: string): (i: int)
    ensures -1 <= i < |emails|
    ensures i >= 0 ==> emails[i] == email
    ensures i < 0 ==> email !in emails
  {
    if emails == [] then -1
    else if emails[|emails| - 1] == email then |emails| - 1
    else
      assert emails == emails[..|emails| - 1] + [emails[|emails| - 1]];
      FindUser(emails[..|emails| - 1], email)
  }

  predicate IsLiveOwner(m: Member, business: nat) {
    m.business == business && m.role == Owner && m.deletedAt.None?
  }

  function OwnerCount(members: seq<Member>, business: nat): nat {
    if members == [] then 0
    else OwnerCount(members[..|members| - 1], business)
         + (if IsLiveOwner(members[|members| - 1], business) then 1 else 0)
  }

  predicate IsUnused(i: Invitation, business: nat, email: string) {
    i.business == business && i.email == email && i.usedAt.None?
  }

  predicate IsExpired(i: Invitation, now: int) {
    now > i.expiresAt
  }

  function UnusedCount(invitations: seq<Invitation>, business: nat, email: string): nat {
    if invitations == [] then 0
    else UnusedCount(invitations[..|invitations| - 1], business, email)
         + (if IsUnused(invitations[|invitations| - 1], business, email) then 1 else 0)
  }

  function FindUnused(invitations: seq<Invitation>, business: nat, email: string): (i: int)
    ensures -1 <= i < |invitations|
    ensures i >= 0 ==> IsUnused(invitations[i], business, email)
    ensures i < 0 ==> forall j :: 0 <= j < |invitations| ==> !IsUnused(invitations[j], business, email)
  {
    if invitations == [] then -1
    else if IsUnused(invitations[|invitations| - 1], business, email) then |invitations| - 1
    else FindUnused(invitations[..|invitations| - 1], business, email)
  }

  predicate SlugTaken(businesses: seq<Business>, slug: string) {
    exists i :: 0 <= i < |businesses| && businesses[i].slug == slug
  }

  /** uq_business_member_user_business: live or deleted, one row per user and business. */
  predicate RowExists(members: seq<Member>, user: nat, business: nat) {
    exists i :: 0 <= i < |members| && members[i].user == user && members[i].business == business
  }

  // ---- The API ----

  /** Every method works on a copy of the database, the request's transaction, and publishes it
      only at the end; returning earlier is the rollback. */
  class BusinessApi {
    var db: Db

    constructor ()
      ensures db == Db([], [], [], [], [], [])
    {
      db := Db([], [], [], [], [], []);
    }

    method RegisterUser(email: string) returns (r: Result)
      modifies this
      ensures r == DoRegister(old(db), email) && db == Settle(old(db), r)
    {
      if email in db.emails { return Err(Conflict); }
      db := db.(emails := db.emails + [email]);
      return Ok(db);
    }

    /** `_get_user_business` and `_check_minimum_role(..., OWNER)`. */
    method RequireOwner(user: nat, business: nat) returns (failure: Option<Failure>)
      ensures failure == OwnerFailure(db, user, business)
    {
      if user >= |db.emails| { return Some(Unauthenticated); }
      if business >= |db.businesses| { return Some(NotFound); }
      var m := FindMember(db.members, user, business);
      if m < 0 { return Some(NotAuthorized); }
      if Level(db.members[m].role) < Level(Owner) { return Some(NotAuthorized); }
      return None;
    }

    method CreateBusinessFor(user: nat, slug: string) returns (r: Result)
      modifies this
      ensures r == DoCreate(old(db), user, slug) && db == Settle(old(db), r)
    {
      if user >= |db.emails| { return Err(Unauthenticated); }
      if SlugTaken(db.businesses, slug) { return Err(Conflict); }
      var tx := db;
      var business := |tx.businesses|;
      tx := tx.(businesses := tx.businesses + [Business(slug, Pending)]);
      if RowExists(tx.members, user, business) { return Err(IntegrityError); }
      tx := tx.(members := tx.members + [Member(user, business, Owner, None)]);
      db := tx;
      return Ok(db);
    }

    method TransitionBusiness(user: nat, business: nat, target: Status, now: int) returns (r: Result)
      modifies this
      ensures r == DoTransition(old(db), user, business, target, now) && db == Settle(old(db), r)
    {
      var failure := RequireOwner(user, business);
      if failure.Some? { return Err(failure.value); }
      var tx := db;
      var current := tx.businesses[business].status;
      if !Allowed(current, target) { return Err(BadTransition); }
      tx := tx.(businesses := tx.businesses[business := tx.businesses[business].(status := target)]);
      var event := Event(StatusChanged(business, current, target), Some(Second(now)));
      if event in tx.outbox { return Err(IntegrityError); }
      db := tx.(outbox := tx.outbox + [event]);
      return Ok(db);
    }

    method AddMemberTo(user: nat, business: nat, email: string, role: Role) returns (r: Result)
      modifies this
      ensures r == DoAdd(old(db), user, business, email, role) && db == Settle(old(db), r)
    {
      var failure := RequireOwner(user, business);
      if failure.Some? { return Err(failure.value); }
      var target := FindUser(db.emails, email);
      if target < 0 { return Err(NotFound); }
      if FindMember(db.members, target, business) >= 0 { return Err(Conflict); }
      if RowExists(db.members, target, business) { return Err(IntegrityError); }
      db := db.(members := db.members + [Member(target, business, role, None)]);
      return Ok(db);
    }

    method RemoveMemberFrom(user: nat, business: nat, member: nat, now: int) returns (r: Result)
      modifies this
      ensures r == DoRemove(old(db), user, business, member, now) && db == Settle(old(db), r)
    {
      var failure := RequireOwner(user, business);
      if failure.Some? { return Err(failure.value); }
      var tx := db;
      if member >= |tx.members| || tx.members[member].business != business || tx.members[member].deletedAt.Some? {
        return Err(NotFound);
      }
      var target := tx.members[member];
      if target.user == user { return Err(SelfRemoval); }
      if target.role == Owner {
        if OwnerCount(tx.members, business) <= 1 { return Err(LastOwner); }
      }
      tx := tx.(members := tx.members[member := target.(deletedAt := Some(now))]);
      var event := Event(MemberRemoved(member), Some(Second(now)));
      if event in tx.outbox { return Err(IntegrityError); }
      db := tx.(outbox := tx.outbox + [event]);
      return Ok(db);
    }

    method InviteMember(user: nat, business: nat, rawEmail: string, role: Role, now: int) returns (r: Result)
      modifies this
      ensures r == DoInvite(old(db), user, business, rawEmail, role, now) && db == Settle(old(db), r)
    {
      var failure := RequireOwner(user, business);
      if failure.Some? { return Err(failure.value); }
      var tx := db;
      var email := Normalized(rawEmail);
      var invitee := FindUser(tx.emails, email);
      if invitee >= 0 && FindMember(tx.members, invitee, business) >= 0 { return Err(Conflict); }
      if UnusedCount(tx.invitations, business, email) > 1 { return Err(MultipleResults); }
      var existing := FindUnused(tx.invitations, business, email);
      if existing >= 0 && !IsExpired(tx.invitations[existing], now) { return Err(Conflict); }
      var id := |tx.invitations|;
      tx := tx.(invitations := tx.invitations + [Invitation(business, email, role, now + INVITATION_TICKS, None)]);
      var event := Event(MemberInvited(id), None);
      if event in tx.outbox { return Err(IntegrityError); }
      db := tx.(outbox := tx.outbox + [event]);
      return Ok(db);
    }

    method UpdateMemberRole(user: nat, business: nat, member: nat, role: Role, now: int) returns (r: Result)
      modifies this
      ensures r == DoChangeRole(old(db), user, business, member, role, now) && db == Settle(old(db), r)
    {
      var failure := RequireOwner(user, business);
      if failure.Some? { return Err(failure.value); }
      var tx := db;
      if member >= |tx.members| || tx.members[member].business != business || tx.members[member].deletedAt.Some? {
        return Err(NotFound);
      }
      var target := tx.members[member];
      if target.role == Owner && role != Owner {
        if OwnerCount(tx.members, business) <= 1 { return Err(LastOwner); }
      }
      tx := tx.(members := tx.members[member := target.(role := role)]);
      if target.role != role {
        var event := Event(RoleChanged(member, role), Some(Second(now)));
        if event in tx.outbox { return Err(IntegrityError); }
        tx := tx.(outbox := tx.outbox + [event]);
      }
      db := tx;
      return Ok(db);
    }

    method AcceptInvitation(user: nat, invitation: nat, now: int) returns (r: Result)
      modifies this
      ensures r == DoAccept(old(db), user, invitation, now) && db == Settle(old(db), r)
    {
      if user >= |db.emails| { return Err(Unauthenticated); }
      var tx := db;
      if invitation >= |tx.invitations| { return Err(NotFound); }
      var i := tx.invitations[invitation];
      if i.usedAt.Some? { return Err(Invalid); }
      if IsExpired(i, now) { return Err(Invalid); }
      if Normalized(tx.emails[user]) != i.email { return Err(NotAuthorized); }
      if FindMember(tx.members, user, i.business) >= 0 { return Err(Conflict); }
      if RowExists(tx.members, user, i.business) { return Err(IntegrityError); }
      tx := tx.(acceptances := tx.acceptances + [Acceptance(invitation, |tx.members|, i.role)]);
      tx := tx.(members := tx.members + [Member(user, i.business, i.role, None)]);
      tx := tx.(invitations := tx.invitations[invitation := i.(usedAt := Some(now))]);
      var event := Event(MemberAccepted(invitation), None);
      if event in tx.outbox { return Err(IntegrityError); }
      db := tx.(outbox := tx.outbox + [event]);
      return Ok(db);
    }
  }

  // ---- The requests as functions ----

  function Settle(db: Db, r: Result): Db {
    if r.Ok? then r.db else db
  }

  function OwnerFailure(db: Db, user: nat, business: nat): Option<Failure> {
    if user >= |db.emails| then Some(Unauthenticated)
    else if business >= |db.businesses| then Some(NotFound)
    else
      var m := FindMember(db.members, user, business);
      if m < 0 || db.members[m].role != Owner then Some(NotAuthorized) else None
  }

  predicate IsMemberOf(db: Db, member: nat, business: nat) {
    member < |db.members| && db.members[member].business == business && db.members[member].deletedAt.None?
  }

  /** Adds the event, or aborts the transaction when its idempotency key is taken. */
  function Emitted(db: Db, event: Event): Result {
    if event in db.outbox then Err(IntegrityError) else Ok(db.(outbox := db.outbox + [event]))
  }

  function DoRegister(db: Db, email: string): Result {
    if email in db.emails then Err(Conflict) else Ok(db.(emails := db.emails + [email]))
  }

  function DoCreate(db: Db, user: nat, slug: string): Result {
    if user >= |db.emails| then Err(Unauthenticated)
    else if SlugTaken(db.businesses, slug) then Err(Conflict)
    else if RowExists(db.members, user, |db.businesses|) then Err(IntegrityError)
    else Ok(db.(businesses := db.businesses + [Business(slug, Pending)],
                members := db.members + [Member(user, |db.businesses|, Owner, None)]))
  }

  function DoTransition(db: Db, user: nat, business: nat, target: Status, now: int): Result {
    var failure := OwnerFailure(db, user, business);
    if failure.Some? then Err(failure.value)
    else
      var b := db.businesses[business];
      if !Allowed(b.status, target) then Err(BadTransition)
      else Emitted(db.(businesses := db.businesses[business := b.(status := target)]),
                   Event(StatusChanged(business, b.status, target), Some(Second(now))))
  }

  function DoAdd(db: Db, user: nat, business: nat, email: string, role: Role): Result {
    var failure := OwnerFailure(db, user, business);
    var target := FindUser(db.emails, email);
    if failure.Some? then Err(failure.value)
    else if target < 0 then Err(NotFound)
    else if FindMember(db.members, target, business) >= 0 then Err(Conflict)
    else if RowExists(db.members, target, business) then Err(IntegrityError)
    else Ok(db.(members := db.members + [Member(target, business, role, None)]))
  }

  function DoRemove(db: Db, user: nat, business: nat, member: nat, now: int): Result {
    var failure := OwnerFailure(db, user, business);
    if failure.Some? then Err(failure.value)
    else if !IsMemberOf(db, member, business) then Err(NotFound)
    else
      var m := db.members[member];
      if m.user == user then Err(SelfRemoval)
      else if m.role == Owner && OwnerCount(db.members, business) <= 1 then Err(LastOwner)
      else Emitted(db.(members := db.members[member := m.(deletedAt := Some(now))]),
                   Event(MemberRemoved(member), Some(Second(now))))
  }

  function DoInvite(db: Db, user: nat, business: nat, rawEmail: string, role: Role, now: int): Result {
    var failure := OwnerFailure(db, user, business);
    var email := Normalized(rawEmail);
    var invitee := FindUser(db.emails, email);
    var existing := FindUnused(db.invitations, business, email);
    if failure.Some? then Err(failure.value)
    else if invitee >= 0 && FindMember(db.members, invitee, business) >= 0 then Err(Conflict)
    else if UnusedCount(db.invitations, business, email) > 1 then Err(MultipleResults)
    else if existing >= 0 && !IsExpired(db.invitations[existing], now) then Err(Conflict)
    else Emitted(db.(invitations := db.invitations + [Invitation(business, email, role, now + INVITATION_TICKS, None)]),
                 Event(MemberInvited(|db.invitations|), None))
  }

  function DoChangeRole(db: Db, user: nat, business: nat, member: nat, role: Role, now: int): Result {
    var failure := OwnerFailure(db, user, business);
    if failure.Some? then Err(failure.value)
    else if !IsMemberOf(db, member, business) then Err(NotFound)
    else
      var m := db.members[member];
      var changed := db.(members := db.members[member := m.(role := role)]);
      if m.role == Owner && role != Owner && OwnerCount(db.members, business) <= 1 then Err(LastOwner)
      else if m.role == role then Ok(changed)
      else Emitted(changed, Event(RoleChanged(member, role), Some(Second(now))))
  }

  function DoAccept(db: Db, user: nat, invitation: nat, now: int): Result {
    if user >= |db.emails| then Err(Unauthenticated)
    else if invitation >= |db.invitations| then Err(NotFound)
    else
      var i := db.invitations[invitation];
      if i.usedAt.Some? || IsExpired(i, now) then Err(Invalid)
      else if Normalized(db.emails[user]) != i.email then Err(NotAuthorized)
      else if FindMember(db.members, user, i.business) >= 0 then Err(Conflict)
      else if RowExists(db.members, user, i.business) then Err(IntegrityError)
      else Emitted(db.(acceptances := db.acceptances + [Acceptance(invitation, |db.members|, i.role)],
                       members := db.members + [Member(user, i.business, i.role, None)],
                       invitations := db.invitations[invitation := i.(usedAt := Some(now))]),
                   Event(MemberAccepted(invitation), None))
  }

  function Handle(db: Db, req: Request, now: int): Result {
    match req
    case Register(email) => DoRegister(db, email)
    case CreateBusiness(u, slug) => DoCreate(db, u, slug)
    case Transition(u, b, target) => DoTransition(db, u, b, target, now)
    case AddMember(u, b, email, role) => DoAdd(db, u, b, email, role)
    case RemoveMember(u, b, m) => DoRemove(db, u, b, m, now)
    case Invite(u, b, email, role) => DoInvite(db, u, b, email, role, now)
    case ChangeRole(u, b, m, role) => DoChangeRole(db, u, b, m, role, now)
    case Accept(u, i) => DoAccept(db, u, i, now)
  }

  /** A request and the clock reading it is served with. */
  datatype Timed = Timed(req: Request, now: int)

  function After(db: Db, t: Timed): Db {
    Settle(db, Handle(db, t.req, t.now))
  }

  const EMPTY := Db([], [], [], [], [], [])

  /** The database after a run of requests. */
  function Run(ts: seq<Timed>): Db {
    if ts == [] then EMPTY else After(Run(ts[..|ts| - 1]), ts[|ts| - 1])
  }
}
