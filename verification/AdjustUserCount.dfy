/**
 * Organization-user seat bookkeeping run for an invoice item: pause,
 * unpause, remove or add a user in one or more organizations, update an
 * organization's active domain, and record one audit entry. The document
 * tables are in-memory values, dates are integers, and the helpers that
 * look things up elsewhere (email domain, company-domain check, domain
 * guess) are given as functions.
 */
module AdjustUserCount {
  import opened Wrappers

  datatype InvoiceItemType = AddUser | AutoPauseUser | PauseUser | RemoveUser | UnpauseUser

  datatype AuditEventType = Added | Activated | Inactivated | Removed

  /** The database action an invoice item type runs. */
  datatype DbAction = AddUserAction | ChangePauseAction(inactive: bool) | DeleteUserAction

  /** dbActionTypeLookup */
  function DbActionFor(t: InvoiceItemType): (a: DbAction)
    ensures a.ChangePauseAction? <==> t in {AutoPauseUser, PauseUser, UnpauseUser}
    ensures a.ChangePauseAction? ==> (a.inactive <==> t != UnpauseUser)
  {
    match t
    case AddUser => AddUserAction
    case AutoPauseUser => ChangePauseAction(true)
    case PauseUser => ChangePauseAction(true)
    case RemoveUser => DeleteUserAction
    case UnpauseUser => ChangePauseAction(false)
  }

  /** auditEventTypeLookup */
  function AuditEventFor(t: InvoiceItemType): (e: AuditEventType)
    ensures e == Added <==> t == AddUser
    ensures e == Inactivated <==> t == AutoPauseUser || t == PauseUser
    ensures e == Activated <==> t == UnpauseUser
    ensures e == Removed <==> t == RemoveUser
  {
    match t
    case AddUser => Added
    case AutoPauseUser => Inactivated
    case PauseUser => Inactivated
    case RemoveUser => Removed
    case UnpauseUser => Activated
  }

  /** The two lookup tables agree: the audit event names exactly the action
      that was run. */
  lemma AuditMatchesAction(t: InvoiceItemType)
    ensures AuditEventFor(t) == Added <==> DbActionFor(t) == AddUserAction
    ensures AuditEventFor(t) == Inactivated <==> DbActionFor(t) == ChangePauseAction(true)
    ensures AuditEventFor(t) == Activated <==> DbActionFor(t) == ChangePauseAction(false)
    ensures AuditEventFor(t) == Removed <==> DbActionFor(t) == DeleteUserAction
  {
  }

  /** The organization argument: one id or a list of ids. */
  datatype OrgInput = OneOrg(orgId: string) | OrgList(orgIds: seq<string>)

  function OrgIds(orgInput: OrgInput): (orgIds: seq<string>)
    ensures orgInput.OneOrg? ==> orgIds == [orgInput.orgId]
    ensures orgInput.OrgList? ==> orgIds == orgInput.orgIds
  {
    match orgInput
    case OneOrg(orgId) => [orgId]
    case OrgList(orgIds) => orgIds
  }

  datatype User = User(id: string, email: string, inactive: bool)

  datatype Organization = Organization(
    id: string,
    tier: string,
    periodEnd: Option<int>,
    activeDomain: Option<string>,
    isActiveDomainTouched: bool)

  datatype OrganizationUser = OrganizationUser(
    id: string,
    orgId: string,
    userId: string,
    inactive: bool,
    removedAt: Option<int>,
    newUserUntil: Option<int>,
    tier: string)

  /** One call of insertOrgUserAudit. */
  datatype AuditCall = AuditCall(orgIds: seq<string>, userId: string, eventType: AuditEventType)

  /** getDomainFromEmail, the isCompanyDomain loader and
      getActiveDomainForOrgId. */
  datatype Oracles = Oracles(
    domainFromEmail: string -> string,
    isCompanyDomain: string -> bool,
    activeDomainForOrgId: string -> Option<string>)

  /** maybeUpdateOrganizationActiveDomain's decision: the domain to write,
      or None to leave the organization alone. An empty guess is falsy and
      counts as no guess. */
  function ActiveDomainUpdate(org: Organization, newUserDomain: string, isCompanyDomain: bool, guess: Option<string>): (r: Option<string>)
    ensures org.isActiveDomainTouched ==> r.None?
    ensures org.activeDomain == Some(newUserDomain) ==> r.None?
    ensures !isCompanyDomain ==> r.None?
    ensures guess.None? || guess == Some("") || guess == org.activeDomain ==> r.None?
    ensures r.Some? ==> r == guess && r.value != "" && r != org.activeDomain
    ensures r.None? ==>
      || org.isActiveDomainTouched || org.activeDomain == Some(newUserDomain) || !isCompanyDomain
      || guess.None? || guess == Some("") || guess == org.activeDomain
  {
    if org.isActiveDomainTouched then None
    else if Some(newUserDomain) == org.activeDomain || !isCompanyDomain then None
    else if guess.None? || guess.value == "" || guess == org.activeDomain then None
    else guess
  }

  /** The organization after maybeUpdateOrganizationActiveDomain. */
  function WithActiveDomain(org: Organization, orgId: string, newUserEmail: string, oracles: Oracles): (r: Organization)
    ensures r == org.(activeDomain := r.activeDomain)
    ensures var newUserDomain := oracles.domainFromEmail(newUserEmail);
      var update := ActiveDomainUpdate(org, newUserDomain, oracles.isCompanyDomain(newUserDomain), oracles.activeDomainForOrgId(orgId));
      && (r != org <==> update.Some?)
      && (update.Some? ==> r.activeDomain == update)
  {
    var newUserDomain := oracles.domainFromEmail(newUserEmail);
    match ActiveDomainUpdate(org, newUserDomain, oracles.isCompanyDomain(newUserDomain), oracles.activeDomainForOrgId(orgId))
    case Some(domain) => org.(activeDomain := Some(domain))
    case None => org
  }

  /** Running the update a second time changes nothing: it either did not
      fire, or the guess is now the current domain. */
  lemma WithActiveDomainIdempotent(org: Organization, orgId: string, newUserEmail: string, oracles: Oracles)
    ensures WithActiveDomain(WithActiveDomain(org, orgId, newUserEmail, oracles), orgId, newUserEmail, oracles)
      == WithActiveDomain(org, orgId, newUserEmail, oracles)
  {
  }

  predicate Owns(row: OrganizationUser, userId: string, orgId: string) {
    row.userId == userId && row.orgId == orgId
  }

  /** Strictly later in a descending order on newUserUntil where a missing
      date comes last. */
  predicate Later(a: Option<int>, b: Option<int>) {
    a.Some? && (b.None? || a.value > b.value)
  }

  /** The `find` over the user's rows ordered by newUserUntil, newest
      first: that user's row for the organization with the latest grace
      date, the earliest such row when several tie. */
  function OldOrganizationUser(rows: seq<OrganizationUser>, userId: string, orgId: string): (r: Option<OrganizationUser>)
    ensures r.None? <==> forall i :: 0 <= i < |rows| ==> !Owns(rows[i], userId, orgId)
    ensures r.Some? ==> r.value in rows && Owns(r.value, userId, orgId)
    ensures r.Some? ==>
      forall i :: 0 <= i < |rows| && Owns(rows[i], userId, orgId) ==> !Later(rows[i].newUserUntil, r.value.newUserUntil)
    decreases |rows|
  {
    if rows == [] then None
    else
      var init, last := rows[..|rows| - 1], rows[|rows| - 1];
      var before := OldOrganizationUser(init, userId, orgId);
      assert forall i :: 0 <= i < |init| ==> init[i] == rows[i];
      if Owns(last, userId, orgId) && (before.None? || Later(last.newUserUntil, before.value.newUserUntil)) then Some(last)
      else before
  }

  /** The grace-period rule: continue the old row's date, else the end of
      the invoice period, else now. */
  function NewUserUntil(oldRow: Option<OrganizationUser>, org: Organization, now: int): (r: int)
    ensures oldRow.Some? && oldRow.value.newUserUntil.Some? ==> Some(r) == oldRow.value.newUserUntil
    ensures Some(r) == org.periodEnd || r == now || (oldRow.Some? && Some(r) == oldRow.value.newUserUntil)
    ensures org.periodEnd.None? && (oldRow.None? || oldRow.value.newUserUntil.None?) ==> r == now
  {
    if oldRow.Some? && oldRow.value.newUserUntil.Some? then oldRow.value.newUserUntil.value
    else if org.periodEnd.Some? then org.periodEnd.value
    else now
  }

  /** The row addUser writes for one organization: active, not removed,
      on the organization's tier, reusing the id of the user's existing row
      for that organization (so the insert replaces it) or else a newly
      generated id. */
  function NewOrganizationUser(rows: seq<OrganizationUser>, organizations: map<string, Organization>,
                               userId: string, orgId: string, freshId: string, now: int): (doc: OrganizationUser)
    requires orgId in organizations
    ensures Owns(doc, userId, orgId) && doc.tier == organizations[orgId].tier
    ensures !doc.inactive && doc.removedAt.None? && doc.newUserUntil.Some?
  {
    var oldRow := OldOrganizationUser(rows, userId, orgId);
    var org := organizations[orgId];
    var id := if oldRow.Some? then oldRow.value.id else freshId;
    OrganizationUser(id, orgId, userId, false, None, Some(NewUserUntil(oldRow, org, now)), org.tier)
  }

  /** A re-added user keeps the id of its row for the organization with the
      latest grace date, the row the insert then replaces; only a user with
      no such row gets the generated id. */
  lemma NewOrganizationUserId(rows: seq<OrganizationUser>, organizations: map<string, Organization>,
                              userId: string, orgId: string, freshId: string, now: int)
    requires orgId in organizations
    ensures (exists i :: 0 <= i < |rows| && Owns(rows[i], userId, orgId)) ==>
      exists k :: 0 <= k < |rows| && Owns(rows[k], userId, orgId) &&
        NewOrganizationUser(rows, organizations, userId, orgId, freshId, now).id == rows[k].id &&
        forall i :: 0 <= i < |rows| && Owns(rows[i], userId, orgId) ==> !Later(rows[i].newUserUntil, rows[k].newUserUntil)
    ensures (forall i :: 0 <= i < |rows| ==> !Owns(rows[i], userId, orgId)) ==>
      NewOrganizationUser(rows, organizations, userId, orgId, freshId, now).id == freshId
  {
    var oldRow := OldOrganizationUser(rows, userId, orgId);
    if oldRow.Some? {
      var k :| 0 <= k < |rows| && rows[k] == oldRow.value;
      assert Owns(rows[k], userId, orgId);
    }
  }

  /** A re-added user's grace period is never cut short: the new date is
      the latest date among its rows for the organization; with no dated
      row it is the end of the invoice period, else now. */
  lemma GracePeriodContinues(rows: seq<OrganizationUser>, organizations: map<string, Organization>,
                             userId: string, orgId: string, freshId: string, now: int)
    requires orgId in organizations
    ensures forall i :: 0 <= i < |rows| && Owns(rows[i], userId, orgId) && rows[i].newUserUntil.Some? ==>
      NewOrganizationUser(rows, organizations, userId, orgId, freshId, now).newUserUntil.value >= rows[i].newUserUntil.value
    ensures (exists i :: 0 <= i < |rows| && Owns(rows[i], userId, orgId) && rows[i].newUserUntil.Some?) ==>
      exists k :: 0 <= k < |rows| && Owns(rows[k], userId, orgId) &&
        rows[k].newUserUntil == NewOrganizationUser(rows, organizations, userId, orgId, freshId, now).newUserUntil
    ensures (forall i :: 0 <= i < |rows| && Owns(rows[i], userId, orgId) ==> rows[i].newUserUntil.None?) ==>
      var org := organizations[orgId];
      NewOrganizationUser(rows, organizations, userId, orgId, freshId, now).newUserUntil ==
        Some(if org.periodEnd.Some? then org.periodEnd.value else now)
  {
    var oldRow := OldOrganizationUser(rows, userId, orgId);
    var doc := NewOrganizationUser(rows, organizations, userId, orgId, freshId, now);
    if oldRow.Some? {
      var k :| 0 <= k < |rows| && rows[k] == oldRow.value;
      assert Owns(rows[k], userId, orgId);
      if oldRow.value.newUserUntil.Some? {
        assert rows[k].newUserUntil == doc.newUserUntil;
      }
    }
  }

  /** The docs addUser inserts: one per organization id, in order. */
  function NewDocs(rows: seq<OrganizationUser>, organizations: map<string, Organization>, userId: string,
                   orgIds: seq<string>, freshIds: seq<string>, now: int): (docs: seq<OrganizationUser>)
    requires |freshIds| == |orgIds|
    requires forall i :: 0 <= i < |orgIds| ==> orgIds[i] in organizations
    ensures |docs| == |orgIds|
    ensures forall i :: 0 <= i < |docs| ==>
      && Owns(docs[i], userId, orgIds[i]) && docs[i].tier == organizations[orgIds[i]].tier
      && !docs[i].inactive && docs[i].removedAt.None?
  {
    seq(|orgIds|, i requires 0 <= i < |orgIds| => NewOrganizationUser(rows, organizations, userId, orgIds[i], freshIds[i], now))
  }

  predicate UniqueIds(rows: seq<OrganizationUser>) {
    forall i, j :: 0 <= i < j < |rows| ==> rows[i].id != rows[j].id
  }

  /** Generated ids: distinct, and none is the id of an existing row. */
  predicate FreshIds(freshIds: seq<string>, rows: seq<OrganizationUser>) {
    && (forall i, j :: 0 <= i < j < |freshIds| ==> freshIds[i] != freshIds[j])
    && (forall i, k :: 0 <= i < |freshIds| && 0 <= k < |rows| ==> freshIds[i] != rows[k].id)
  }

  function IndexOfId(rows: seq<OrganizationUser>, id: string): (r: Option<nat>)
    ensures r.Some? ==> r.value < |rows| && rows[r.value].id == id
    ensures r.None? ==> forall i :: 0 <= i < |rows| ==> rows[i].id != id
  {
    if rows == [] then None
    else if rows[0].id == id then Some(0)
    else match IndexOfId(rows[1..], id)
      case None => None
      case Some(k) => Some(k + 1)
  }

  /** Insert with conflict 'replace': the row with the doc's id is replaced,
      or the doc is appended. */
  function Upsert(rows: seq<OrganizationUser>, doc: OrganizationUser): (r: seq<OrganizationUser>)
    ensures doc in r
    ensures |r| == |rows| + 1 <==> forall i :: 0 <= i < |rows| ==> rows[i].id != doc.id
    ensures |r| == |rows| || |r| == |rows| + 1
  {
    match IndexOfId(rows, doc.id)
    case Some(i) => assert rows[i := doc][i] == doc; rows[i := doc]
    case None => assert (rows + [doc])[|rows|] == doc; rows + [doc]
  }

  /** The docs upserted in order. */
  function UpsertAll(rows: seq<OrganizationUser>, docs: seq<OrganizationUser>): (r: seq<OrganizationUser>)
    ensures |rows| <= |r| <= |rows| + |docs|
    decreases |docs|
  {
    if docs == [] then rows else Upsert(UpsertAll(rows, docs[..|docs| - 1]), docs[|docs| - 1])
  }

  /** One upsert keeps ids unique, stores the doc, and keeps every row with
      another id. */
  lemma UpsertEffect(rows: seq<OrganizationUser>, doc: OrganizationUser)
    requires UniqueIds(rows)
    ensures UniqueIds(Upsert(rows, doc))
    ensures forall x :: x in rows && x.id != doc.id ==> x in Upsert(rows, doc)
    ensures forall x :: x in Upsert(rows, doc) ==> x == doc || (x in rows && x.id != doc.id)
  {
    var r := Upsert(rows, doc);
    match IndexOfId(rows, doc.id)
    case Some(i) =>
      assert r == rows[i := doc];
      assert r[i] == doc;
      forall x | x in rows && x.id != doc.id ensures x in r {
        var k :| 0 <= k < |rows| && rows[k] == x;
        assert r[k] == x;
      }
      forall x | x in r ensures x == doc || (x in rows && x.id != doc.id) {
        var k :| 0 <= k < |r| && r[k] == x;
        if k != i {
          assert x == rows[k];
        }
      }
    case None =>
      assert r == rows + [doc];
      assert r[|rows|] == doc;
      forall x | x in rows ensures x in r {
        var k :| 0 <= k < |rows| && rows[k] == x;
        assert r[k] == x;
      }
  }

  /** Upserting keeps the ids of the table unique. */
  lemma {:induction false} UpsertAllUnique(rows: seq<OrganizationUser>, docs: seq<OrganizationUser>)
    requires UniqueIds(rows)
    ensures UniqueIds(UpsertAll(rows, docs))
    decreases |docs|
  {
    if docs != [] {
      UpsertAllUnique(rows, docs[..|docs| - 1]);
      UpsertEffect(UpsertAll(rows, docs[..|docs| - 1]), docs[|docs| - 1]);
    }
  }

  /** Every doc's id ends up held by a doc carrying that id (the last of
      them to be upserted). */
  lemma {:induction false} UpsertAllStores(rows: seq<OrganizationUser>, docs: seq<OrganizationUser>, i: nat)
    requires UniqueIds(rows) && i < |docs|
    ensures exists x :: x in UpsertAll(rows, docs) && x in docs && x.id == docs[i].id
    decreases |docs|
  {
    var init, last := docs[..|docs| - 1], docs[|docs| - 1];
    var before := UpsertAll(rows, init);
    UpsertAllUnique(rows, init);
    UpsertEffect(before, last);
    var after := UpsertAll(rows, docs);
    assert last in after && last in docs;
    if i < |docs| - 1 {
      UpsertAllStores(rows, init, i);
      assert init[i] == docs[i];
      var x :| x in before && x in init && x.id == init[i].id;
      if x.id != last.id {
        assert x in after && x in docs;
      }
    }
  }

  /** A row whose id no doc carries is kept as it was. */
  lemma {:induction false} UpsertAllKeeps(rows: seq<OrganizationUser>, docs: seq<OrganizationUser>)
    requires UniqueIds(rows)
    ensures forall x :: x in rows && (forall k :: 0 <= k < |docs| ==> docs[k].id != x.id) ==> x in UpsertAll(rows, docs)
    decreases |docs|
  {
    if docs != [] {
      var init, last := docs[..|docs| - 1], docs[|docs| - 1];
      UpsertAllKeeps(rows, init);
      UpsertAllUnique(rows, init);
      UpsertEffect(UpsertAll(rows, init), last);
      forall x | x in rows && (forall k :: 0 <= k < |docs| ==> docs[k].id != x.id)
        ensures x in UpsertAll(rows, docs)
      {
        assert forall k :: 0 <= k < |init| ==> init[k] == docs[k];
        assert x in UpsertAll(rows, init);
      }
    }
  }

  /** Nothing but the old rows and the docs appears in the table. */
  lemma {:induction false} UpsertAllOnly(rows: seq<OrganizationUser>, docs: seq<OrganizationUser>)
    requires UniqueIds(rows)
    ensures forall x :: x in UpsertAll(rows, docs) ==> x in docs || x in rows
    decreases |docs|
  {
    if docs != [] {
      var init, last := docs[..|docs| - 1], docs[|docs| - 1];
      UpsertAllOnly(rows, init);
      UpsertAllUnique(rows, init);
      UpsertEffect(UpsertAll(rows, init), last);
      forall x | x in UpsertAll(rows, docs) ensures x in docs || x in rows {
        if x != last {
          assert x in UpsertAll(rows, init);
          if x in init {
            var k :| 0 <= k < |init| && init[k] == x;
            assert docs[k] == x;
          }
        }
      }
    }
  }

  /** Two of addUser's docs with the same id are for the same organization:
      a shared id can only be the id of the same existing row. */
  lemma DocsSameIdSameOrg(rows: seq<OrganizationUser>, organizations: map<string, Organization>, userId: string,
                          orgIds: seq<string>, freshIds: seq<string>, now: int, i: nat, j: nat)
    requires UniqueIds(rows) && |freshIds| == |orgIds| && FreshIds(freshIds, rows)
    requires forall k :: 0 <= k < |orgIds| ==> orgIds[k] in organizations
    requires i < |orgIds| && j < |orgIds|
    requires NewDocs(rows, organizations, userId, orgIds, freshIds, now)[i].id ==
             NewDocs(rows, organizations, userId, orgIds, freshIds, now)[j].id
    ensures orgIds[i] == orgIds[j]
  {
    var oi := OldOrganizationUser(rows, userId, orgIds[i]);
    var oj := OldOrganizationUser(rows, userId, orgIds[j]);
    if oi.Some? && oj.Some? {
      var a :| 0 <= a < |rows| && rows[a] == oi.value;
      var b :| 0 <= b < |rows| && rows[b] == oj.value;
      assert a == b;
    } else if oi.None? && oj.None? {
      assert freshIds[i] == freshIds[j];
    }
  }

  /** "Also adds the organization user if not present": after addUser's
      upsert the user has an active, not removed row in every organization
      it was added to. */
  lemma AddUserGivesMembership(rows: seq<OrganizationUser>, organizations: map<string, Organization>, userId: string,
                               orgIds: seq<string>, freshIds: seq<string>, now: int, i: nat)
    requires UniqueIds(rows) && |freshIds| == |orgIds| && FreshIds(freshIds, rows)
    requires forall k :: 0 <= k < |orgIds| ==> orgIds[k] in organizations
    requires i < |orgIds|
    ensures var docs := NewDocs(rows, organizations, userId, orgIds, freshIds, now);
      exists x :: x in UpsertAll(rows, docs) && Owns(x, userId, orgIds[i]) && x.removedAt.None? && !x.inactive
  {
    var docs := NewDocs(rows, organizations, userId, orgIds, freshIds, now);
    assert |docs| == |orgIds|;
    UpsertAllStores(rows, docs, i);
    var x :| x in UpsertAll(rows, docs) && x in docs && x.id == docs[i].id;
    var j :| 0 <= j < |docs| && docs[j] == x;
    assert docs[j] == NewOrganizationUser(rows, organizations, userId, orgIds[j], freshIds[j], now);
    DocsSameIdSameOrg(rows, organizations, userId, orgIds, freshIds, now, i, j);
    assert Owns(x, userId, orgIds[i]);
  }

  /** changePause's row update. */
  function PausedRow(row: OrganizationUser, userId: string, inactive: bool): (r: OrganizationUser)
    ensures r == row.(inactive := r.inactive)
    ensures r.inactive == inactive <==> (row.userId == userId && row.removedAt.None?) || row.inactive == inactive
  {
    if row.userId == userId && row.removedAt.None? then row.(inactive := inactive) else row
  }

  /** deleteUser's row update. */
  function RemovedRow(row: OrganizationUser, userId: string, orgIds: seq<string>, now: int): (r: OrganizationUser)
    ensures r == row.(removedAt := r.removedAt)
    ensures !(row.userId == userId && row.orgId in orgIds) ==> r == row
    ensures r.removedAt == Some(now) <==> (row.userId == userId && row.orgId in orgIds) || row.removedAt == Some(now)
  {
    if row.userId == userId && row.orgId in orgIds then row.(removedAt := Some(now)) else row
  }

  /** The Organization, OrganizationUser and User tables and the audit log. */
  class Database {
    var users: map<string, User>
    var organizations: map<string, Organization>
    var organizationUsers: seq<OrganizationUser>
    var audits: seq<AuditCall>

    ghost predicate Valid()
      reads this
    {
      && UniqueIds(organizationUsers)
      && (forall id :: id in users ==> users[id].id == id)
      && (forall id :: id in organizations ==> organizations[id].id == id)
    }

    constructor (users: map<string, User>, organizations: map<string, Organization>, organizationUsers: seq<OrganizationUser>)
      ensures this.users == users && this.organizations == organizations
      ensures this.organizationUsers == organizationUsers && audits == []
    {
      this.users := users;
      this.organizations := organizations;
      this.organizationUsers := organizationUsers;
      audits := [];
    }

    /** What changePause(inactive) does: the user's flag is set, and so is
        every one of the user's rows not yet removed; nothing else changes. */
    twostate predicate PauseApplied(user: User, inactive: bool)
      reads this
    {
      && users == (if user.id in old(users) then old(users)[user.id := old(users)[user.id].(inactive := inactive)] else old(users))
      && |organizationUsers| == |old(organizationUsers)|
      && (forall i :: 0 <= i < |organizationUsers| ==>
            organizationUsers[i] == PausedRow(old(organizationUsers)[i], user.id, inactive))
      && organizations == old(organizations)
    }

    /** What deleteUser does: removedAt is stamped on exactly the user's rows
        in the given organizations, removed before or not. */
    twostate predicate RemoveApplied(user: User, orgIds: seq<string>, now: int)
      reads this
    {
      && |organizationUsers| == |old(organizationUsers)|
      && (forall i :: 0 <= i < |organizationUsers| ==>
            organizationUsers[i] == RemovedRow(old(organizationUsers)[i], user.id, orgIds, now))
      && users == old(users) && organizations == old(organizations)
    }

    /** What addUser does: the docs are upserted, and each listed
        organization's active domain is reconsidered; nothing else changes. */
    twostate predicate AddApplied(user: User, orgIds: seq<string>, freshIds: seq<string>, now: int, oracles: Oracles)
      reads this
      requires |freshIds| == |orgIds|
      requires forall i :: 0 <= i < |orgIds| ==> orgIds[i] in old(organizations)
    {
      && organizationUsers == UpsertAll(old(organizationUsers),
           NewDocs(old(organizationUsers), old(organizations), user.id, orgIds, freshIds, now))
      && users == old(users)
      && organizations.Keys == old(organizations).Keys
      && (forall id :: id in organizations ==>
            organizations[id] == if id in orgIds then WithActiveDomain(old(organizations)[id], id, user.email, oracles)
                                 else old(organizations)[id])
    }

    /** changePause(inactive): the organization ids are not used. */
    method ChangePause(inactive: bool, orgIds: seq<string>, user: User)
      requires Valid()
      modifies this
      ensures Valid()
      ensures PauseApplied(user, inactive)
      ensures audits == old(audits)
    {
      if user.id in users {
        users := users[user.id := users[user.id].(inactive := inactive)];
      }
      var i := 0;
      while i < |organizationUsers|
        invariant 0 <= i <= |organizationUsers| == |old(organizationUsers)|
        invariant forall k :: 0 <= k < i ==> organizationUsers[k] == PausedRow(old(organizationUsers)[k], user.id, inactive)
        invariant forall k :: i <= k < |organizationUsers| ==> organizationUsers[k] == old(organizationUsers)[k]
        invariant users == (if user.id in old(users) then old(users)[user.id := old(users)[user.id].(inactive := inactive)] else old(users))
        invariant organizations == old(organizations) && audits == old(audits)
      {
        var row := organizationUsers[i];
        if row.userId == user.id && row.removedAt.None? {
          organizationUsers := organizationUsers[i := row.(inactive := inactive)];
        }
        i := i + 1;
      }
      assert forall k :: 0 <= k < |organizationUsers| ==> organizationUsers[k].id == old(organizationUsers)[k].id;
    }

    /** deleteUser */
    method DeleteUser(orgIds: seq<string>, user: User, now: int)
      requires Valid()
      modifies this
      ensures Valid()
      ensures RemoveApplied(user, orgIds, now)
      ensures audits == old(audits)
    {
      var i := 0;
      while i < |organizationUsers|
        invariant 0 <= i <= |organizationUsers| == |old(organizationUsers)|
        invariant forall k :: 0 <= k < i ==> organizationUsers[k] == RemovedRow(old(organizationUsers)[k], user.id, orgIds, now)
        invariant forall k :: i <= k < |organizationUsers| ==> organizationUsers[k] == old(organizationUsers)[k]
        invariant users == old(users) && organizations == old(organizations) && audits == old(audits)
      {
        var row := organizationUsers[i];
        if row.userId == user.id && row.orgId in orgIds {
          organizationUsers := organizationUsers[i := row.(removedAt := Some(now))];
        }
        i := i + 1;
      }
      assert forall k :: 0 <= k < |organizationUsers| ==> organizationUsers[k].id == old(organizationUsers)[k].id;
    }

    /** maybeUpdateOrganizationActiveDomain */
    method MaybeUpdateOrganizationActiveDomain(orgId: string, newUserEmail: string, oracles: Oracles)
      requires orgId in organizations
      modifies this`organizations
      ensures organizations == old(organizations)[orgId := WithActiveDomain(old(organizations)[orgId], orgId, newUserEmail, oracles)]
    {
      var organization := organizations[orgId];
      if organization.isActiveDomainTouched {
        return;
      }
      var newUserDomain := oracles.domainFromEmail(newUserEmail);
      if Some(newUserDomain) == organization.activeDomain || !oracles.isCompanyDomain(newUserDomain) {
        return;
      }
      var domain := oracles.activeDomainForOrgId(orgId);
      if domain.None? || domain.value == "" || domain == organization.activeDomain {
        return;
      }
      organizations := organizations[orgId := organization.(activeDomain := domain)];
    }

    /** addUser's `map` over the organization ids: the docs, or None when
        an organization is missing (reading its tier throws). */
    method BuildDocs(orgIds: seq<string>, userId: string, now: int, freshIds: seq<string>)
      returns (docs: Option<seq<OrganizationUser>>)
      requires |freshIds| == |orgIds|
      ensures docs.Some? <==> forall i :: 0 <= i < |orgIds| ==> orgIds[i] in organizations
      ensures docs.Some? ==> docs.value == NewDocs(organizationUsers, organizations, userId, orgIds, freshIds, now)
    {
      var built: seq<OrganizationUser> := [];
      var i := 0;
      while i < |orgIds|
        invariant 0 <= i <= |orgIds|
        invariant forall k :: 0 <= k < i ==> orgIds[k] in organizations
        invariant |built| == i
        invariant forall k :: 0 <= k < i ==>
          built[k] == NewOrganizationUser(organizationUsers, organizations, userId, orgIds[k], freshIds[k], now)
      {
        if orgIds[i] !in organizations {
          return None;
        }
        built := built + [NewOrganizationUser(organizationUsers, organizations, userId, orgIds[i], freshIds[i], now)];
        i := i + 1;
      }
      return Some(built);
    }

    /** The insert with conflict 'replace', one doc after the other. */
    method UpsertDocs(docs: seq<OrganizationUser>)
      requires UniqueIds(organizationUsers)
      modifies this`organizationUsers
      ensures organizationUsers == UpsertAll(old(organizationUsers), docs)
      ensures UniqueIds(organizationUsers)
    {
      var j := 0;
      while j < |docs|
        invariant 0 <= j <= |docs|
        invariant organizationUsers == UpsertAll(old(organizationUsers), docs[..j])
        invariant UniqueIds(organizationUsers)
      {
        assert docs[..j + 1][..j] == docs[..j];
        UpsertEffect(organizationUsers, docs[j]);
        organizationUsers := Upsert(organizationUsers, docs[j]);
        j := j + 1;
      }
      assert docs[..j] == docs;
    }

    /** addUser's maybeUpdateOrganizationActiveDomain call for each
        organization id; a repeated id changes nothing the second time. */
    method UpdateActiveDomains(orgIds: seq<string>, newUserEmail: string, oracles: Oracles)
      requires forall i :: 0 <= i < |orgIds| ==> orgIds[i] in organizations
      modifies this`organizations
      ensures organizations.Keys == old(organizations).Keys
      ensures forall id :: id in organizations ==>
        organizations[id] == if id in orgIds then WithActiveDomain(old(organizations)[id], id, newUserEmail, oracles)
                             else old(organizations)[id]
    {
      var k := 0;
      while k < |orgIds|
        invariant 0 <= k <= |orgIds|
        invariant organizations.Keys == old(organizations).Keys
        invariant forall id :: id in organizations ==>
          organizations[id] == if id in orgIds[..k] then WithActiveDomain(old(organizations)[id], id, newUserEmail, oracles)
                               else old(organizations)[id]
      {
        var orgId := orgIds[k];
        assert orgIds[..k + 1] == orgIds[..k] + [orgId];
        WithActiveDomainIdempotent(old(organizations)[orgId], orgId, newUserEmail, oracles);
        MaybeUpdateOrganizationActiveDomain(orgId, newUserEmail, oracles);
        k := k + 1;
      }
      assert orgIds[..k] == orgIds;
    }

    /** addUser: build the docs (a missing organization throws before
        anything is written), upsert them, then reconsider each
        organization's active domain. */
    method AddUser(orgIds: seq<string>, user: User, now: int, freshIds: seq<string>, oracles: Oracles) returns (ok: bool)
      requires Valid()
      requires |freshIds| == |orgIds| && FreshIds(freshIds, organizationUsers)
      modifies this
      ensures Valid()
      ensures ok <==> forall i :: 0 <= i < |orgIds| ==> orgIds[i] in old(organizations)
      ensures !ok ==> unchanged(this)
      ensures ok ==> AddApplied(user, orgIds, freshIds, now, oracles)
      ensures audits == old(audits)
    {
      var docs := BuildDocs(orgIds, user.id, now, freshIds);
      if docs.None? {
        return false;
      }
      UpsertDocs(docs.value);
      UpdateActiveDomains(orgIds, user.email, oracles);
      forall id | id in organizations ensures organizations[id].id == id {
        WithActiveDomainIdempotent(old(organizations)[id], id, user.email, oracles);
      }
      return true;
    }

    /** adjustUserCount: normalise the organization ids, look the user up
        (a missing user throws before anything is written), run the action
        of the item type, then record one audit entry for all the ids. */
    method AdjustUserCount(userId: string, orgInput: OrgInput, t: InvoiceItemType, now: int,
                           freshIds: seq<string>, oracles: Oracles) returns (ok: bool)
      requires Valid()
      requires |freshIds| == |OrgIds(orgInput)| && FreshIds(freshIds, organizationUsers)
      modifies this
      ensures Valid()
      ensures ok <==> (userId in old(users) &&
        (t.AddUser? ==> forall i :: 0 <= i < |OrgIds(orgInput)| ==> OrgIds(orgInput)[i] in old(organizations)))
      ensures !ok ==> unchanged(this)
      ensures ok ==> audits == old(audits) + [AuditCall(OrgIds(orgInput), userId, AuditEventFor(t))]
      ensures ok ==> match DbActionFor(t)
        case ChangePauseAction(inactive) => PauseApplied(old(users)[userId], inactive)
        case DeleteUserAction => RemoveApplied(old(users)[userId], OrgIds(orgInput), now)
        case AddUserAction => AddApplied(old(users)[userId], OrgIds(orgInput), freshIds, now, oracles)
    {
      var orgIds := OrgIds(orgInput);
      if userId !in users {
        return false;
      }
      var user := users[userId];
      match DbActionFor(t) {
        case ChangePauseAction(inactive) =>
          ChangePause(inactive, orgIds, user);
        case DeleteUserAction =>
          DeleteUser(orgIds, user, now);
        case AddUserAction =>
          ok := AddUser(orgIds, user, now, freshIds, oracles);
          if !ok {
            return false;
          }
      }
      ok := true;
      audits := audits + [AuditCall(orgIds, userId, AuditEventFor(t))];
    }
  }
}
