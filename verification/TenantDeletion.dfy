/**
 Deleting a tenant: its organization and everyone who is a member of it, with all they own.
 Run alone from a valid state it leaves no dangling reference and an exact constraint index,
 and both adapters leave the same rows.
 */
module TenantDeletion {
  import opened Outcomes
  import opened Timestamps
  import opened Domain
  import opened Keys
  import opened Relational
  import opened Items

  // ----- the relational form -----

  /** SELECT user_id FROM memberships WHERE organization_id = ?. */
  function TenantUsers(r: Rows, org: string): set<string> {
    set m | m in r.memberships && m.organizationId == org :: m.userId
  }

  predicate Concerns(e: AuditEvent, users: set<string>) {
    e.actorId in users || (e.targetId.Some? && e.targetId.value in users)
  }

  /** What is left without the organization and without everything of these users. */
  function Without(r: Rows, org: string, users: set<string>): Rows {
    Rows(
      (set u | u in r.users && u.id !in users),
      (set i | i in r.identities && i.userId !in users),
      (set o | o in r.organizations && o.id != org),
      (set m | m in r.memberships && m.organizationId != org && m.userId !in users),
      (set k | k in r.apiKeys && k.organizationId != org && k.createdBy !in users),
      (set e | e in r.audits && e.organizationId != org && !Concerns(e, users)),
      (set s | s in r.sessions && s.userId !in users))
  }

  function DeletedRows(r: Rows, org: string): Rows {
    Without(r, org, TenantUsers(r, org))
  }

  predicate IsMember(r: Rows, org: string, user: string) {
    exists m :: m in r.memberships && m.organizationId == org && m.userId == user
  }

  /** A row stays exactly if it is not the organization's, nor one of its members', nor about one of them. */
  lemma OnlyStrangersStay(r: Rows, org: string)
    ensures var after := DeletedRows(r, org);
            && (forall u :: u in after.users <==> u in r.users && !IsMember(r, org, u.id))
            && (forall i :: i in after.identities <==> i in r.identities && !IsMember(r, org, i.userId))
            && (forall o :: o in after.organizations <==> o in r.organizations && o.id != org)
            && (forall m :: m in after.memberships <==>
                  m in r.memberships && m.organizationId != org && !IsMember(r, org, m.userId))
            && (forall k :: k in after.apiKeys <==>
                  k in r.apiKeys && k.organizationId != org && !IsMember(r, org, k.createdBy))
            && (forall e :: e in after.audits <==>
                  e in r.audits && e.organizationId != org && !IsMember(r, org, e.actorId)
                  && (e.targetId.None? || !IsMember(r, org, e.targetId.value)))
            && (forall s :: s in after.sessions <==> s in r.sessions && !IsMember(r, org, s.userId))
  {
    forall user ensures user in TenantUsers(r, org) <==> IsMember(r, org, user) {
    }
    hide IsMember, TenantUsers;
  }

  /** The DELETE statements, in the words of their WHERE clauses. */
  datatype Deletion =
    | AuditsOf(organizationId: string)
    | KeysOf(organizationId: string)
    | MembershipsOf(organizationId: string)
    | TheOrganization(organizationId: string)
    | KeysBy(userId: string)
    | AuditsAbout(userId: string)
    | MembershipsBy(userId: string)
    | SessionsOf(userId: string)
    | IdentitiesOf(userId: string)
    | TheUser(userId: string)

  function Drop(r: Rows, d: Deletion): Rows {
    match d
    case AuditsOf(org) => r.(audits := set e | e in r.audits && e.organizationId != org)
    case KeysOf(org) => r.(apiKeys := set k | k in r.apiKeys && k.organizationId != org)
    case MembershipsOf(org) => r.(memberships := set m | m in r.memberships && m.organizationId != org)
    case TheOrganization(org) => r.(organizations := set o | o in r.organizations && o.id != org)
    case KeysBy(user) => r.(apiKeys := set k | k in r.apiKeys && k.createdBy != user)
    case AuditsAbout(user) => r.(audits := set e | e in r.audits && e.actorId != user && e.targetId != Some(user))
    case MembershipsBy(user) => r.(memberships := set m | m in r.memberships && m.userId != user)
    case SessionsOf(user) => r.(sessions := set s | s in r.sessions && s.userId != user)
    case IdentitiesOf(user) => r.(identities := set i | i in r.identities && i.userId != user)
    case TheUser(user) => r.(users := set u | u in r.users && u.id != user)
  }

  function DropAll(r: Rows, ds: seq<Deletion>): Rows {
    if ds == [] then r else Drop(DropAll(r, ds[..|ds| - 1]), ds[|ds| - 1])
  }

  /** No statement leaves a child without its parent, at whatever statement one looks. */
  ghost predicate NeverTrips(r: Rows, ds: seq<Deletion>) {
    forall n | 0 <= n <= |ds| :: ForeignKeysHold(DropAll(r, ds[..n]))
  }

  function OrganizationDeletions(org: string): seq<Deletion> {
    [AuditsOf(org), KeysOf(org), MembershipsOf(org), TheOrganization(org)]
  }

  function UserDeletions(user: string): seq<Deletion> {
    [KeysBy(user), AuditsAbout(user), MembershipsBy(user), SessionsOf(user), IdentitiesOf(user), TheUser(user)]
  }

  /** The statements for the users fetched, in the order they were fetched. */
  function DeletionsFor(users: seq<string>): seq<Deletion> {
    if users == [] then [] else DeletionsFor(users[..|users| - 1]) + UserDeletions(users[|users| - 1])
  }

  lemma {:induction false} DropAllAppends(r: Rows, cs: seq<Deletion>, ds: seq<Deletion>)
    ensures DropAll(r, cs + ds) == DropAll(DropAll(r, cs), ds)
  {
    if ds == [] {
      assert cs + ds == cs;
    } else {
      assert (cs + ds)[..|cs + ds| - 1] == cs + ds[..|ds| - 1];
      DropAllAppends(r, cs, ds[..|ds| - 1]);
    }
  }

  lemma NeverTripsAppends(r: Rows, cs: seq<Deletion>, ds: seq<Deletion>)
    requires NeverTrips(r, cs) && NeverTrips(DropAll(r, cs), ds)
    ensures NeverTrips(r, cs + ds)
  {
    hide ForeignKeysHold;
    forall n | 0 <= n <= |cs + ds| ensures ForeignKeysHold(DropAll(r, (cs + ds)[..n])) {
      if n <= |cs| {
        assert (cs + ds)[..n] == cs[..n];
      } else {
        assert (cs + ds)[..n] == cs + ds[..n - |cs|];
        DropAllAppends(r, cs, ds[..n - |cs|]);
      }
    }
  }

  /** Dropping children never trips a foreign key. */
  lemma DropChildren(r: Rows, d: Deletion)
    requires ForeignKeysHold(r) && !d.TheOrganization? && !d.TheUser?
    ensures ForeignKeysHold(Drop(r, d))
  {
    var r' := Drop(r, d);
    assert r'.users == r.users && r'.organizations == r.organizations;
  }

  lemma DropChildless(r: Rows, d: Deletion)
    requires ForeignKeysHold(r)
    requires d.TheOrganization? ==>
               && (forall m | m in r.memberships :: m.organizationId != d.organizationId)
               && (forall k | k in r.apiKeys :: k.organizationId != d.organizationId)
               && (forall e | e in r.audits :: e.organizationId != d.organizationId)
    requires d.TheUser? ==>
               && (forall m | m in r.memberships :: m.userId != d.userId)
               && (forall k | k in r.apiKeys :: k.createdBy != d.userId)
               && (forall i | i in r.identities :: i.userId != d.userId)
    requires d.TheOrganization? || d.TheUser?
    ensures ForeignKeysHold(Drop(r, d))
  {
    var r' := Drop(r, d);
    forall id | HasUser(r, id) && !(d.TheUser? && id == d.userId) ensures HasUser(r', id) {
      var u :| u in r.users && u.id == id;
      assert u in r'.users;
    }
    forall id | HasOrganization(r, id) && !(d.TheOrganization? && id == d.organizationId) ensures HasOrganization(r', id) {
      var o :| o in r.organizations && o.id == id;
      assert o in r'.organizations;
    }
  }

  lemma DropOne(r: Rows, d: Deletion)
    ensures DropAll(r, [d]) == Drop(r, d)
  {
    assert [d][..0] == [];
  }

  lemma NeverTripsOne(r: Rows, d: Deletion)
    requires ForeignKeysHold(r) && ForeignKeysHold(Drop(r, d))
    ensures NeverTrips(r, [d])
  {
    hide ForeignKeysHold, Drop;
    DropOne(r, d);
    forall n | 0 <= n <= 1 ensures ForeignKeysHold(DropAll(r, [d][..n])) {
      assert [d][..0] == [] && [d][..1] == [d];
    }
  }

  lemma {:induction false} DropAllChildren(r: Rows, ds: seq<Deletion>)
    requires ForeignKeysHold(r) && forall i | 0 <= i < |ds| :: !ds[i].TheOrganization? && !ds[i].TheUser?
    ensures NeverTrips(r, ds)
  {
    hide ForeignKeysHold, Drop;
    if ds != [] {
      var front := ds[..|ds| - 1];
      DropAllChildren(r, front);
      assert ForeignKeysHold(DropAll(r, front[..|front|])) && front[..|front|] == front;
      DropChildren(DropAll(r, front), ds[|ds| - 1]);
      NeverTripsOne(DropAll(r, front), ds[|ds| - 1]);
      NeverTripsAppends(r, front, [ds[|ds| - 1]]);
      assert ds == front + [ds[|ds| - 1]];
    } else {
      assert ds[..0] == ds;
    }
  }

  /** The organization goes after everything that refers to it. */
  lemma OrganizationGoes(r: Rows, org: string)
    requires ForeignKeysHold(r)
    ensures NeverTrips(r, OrganizationDeletions(org))
    ensures DropAll(r, OrganizationDeletions(org)) == Without(r, org, {})
  {
    hide ForeignKeysHold;
    var children := [AuditsOf(org), KeysOf(org), MembershipsOf(org)];
    assert OrganizationDeletions(org) == children + [TheOrganization(org)];
    DropAllChildren(r, children);
    var r' := DropAll(r, children);
    assert children[..3] == children && ForeignKeysHold(DropAll(r, children[..3]));
    ChildrenOfOrganizationGone(r, org);
    DropChildless(r', TheOrganization(org));
    NeverTripsOne(r', TheOrganization(org));
    NeverTripsAppends(r, children, [TheOrganization(org)]);
    DropAllAppends(r, children, [TheOrganization(org)]);
    DropOne(r', TheOrganization(org));
  }

  lemma ChildrenOfOrganizationGone(r: Rows, org: string)
    ensures DropAll(r, [AuditsOf(org), KeysOf(org), MembershipsOf(org)])
         == r.(audits := (set e | e in r.audits && e.organizationId != org),
               apiKeys := (set k | k in r.apiKeys && k.organizationId != org),
               memberships := (set m | m in r.memberships && m.organizationId != org))
  {
    var a, b, c := AuditsOf(org), KeysOf(org), MembershipsOf(org);
    assert [a, b, c] == [a, b] + [c] && [a, b] == [a] + [b];
    DropAllAppends(r, [a, b], [c]);
    DropAllAppends(r, [a], [b]);
    DropOne(r, a);
    DropOne(Drop(r, a), b);
    DropOne(Drop(Drop(r, a), b), c);
  }

  /** A user goes after everything that refers to them. */
  lemma UserGoes(r: Rows, org: string, gone: set<string>, user: string)
    requires ForeignKeysHold(Without(r, org, gone))
    ensures NeverTrips(Without(r, org, gone), UserDeletions(user))
    ensures DropAll(Without(r, org, gone), UserDeletions(user)) == Without(r, org, gone + {user})
  {
    hide ForeignKeysHold, Without;
    var before := Without(r, org, gone);
    var children := UserDeletions(user)[..5];
    assert UserDeletions(user) == children + [TheUser(user)];
    DropAllChildren(before, children);
    var after := DropAll(before, children);
    assert children[..5] == children && ForeignKeysHold(DropAll(before, children[..5]));
    ChildrenOfUserGone(before, user);
    DropChildless(after, TheUser(user));
    NeverTripsOne(after, TheUser(user));
    NeverTripsAppends(before, children, [TheUser(user)]);
    DropAllAppends(before, children, [TheUser(user)]);
    DropOne(after, TheUser(user));
    UserRowsGone(r, org, gone, user);
  }

  function WithoutChildren(r: Rows, user: string): Rows {
    r.(apiKeys := (set k | k in r.apiKeys && k.createdBy != user),
       audits := (set e | e in r.audits && e.actorId != user && e.targetId != Some(user)),
       memberships := (set m | m in r.memberships && m.userId != user),
       sessions := (set s | s in r.sessions && s.userId != user),
       identities := (set i | i in r.identities && i.userId != user))
  }

  lemma ChildrenOfUserGone(r: Rows, user: string)
    ensures DropAll(r, UserDeletions(user)[..5]) == WithoutChildren(r, user)
  {
    hide DropAll;
    var a, b, c, d, e := KeysBy(user), AuditsAbout(user), MembershipsBy(user), SessionsOf(user), IdentitiesOf(user);
    assert UserDeletions(user)[..5] == (([a, b] + [c]) + [d]) + [e] && [a, b] == [a] + [b];
    DropAllAppends(r, ([a, b] + [c]) + [d], [e]);
    DropAllAppends(r, [a, b] + [c], [d]);
    DropAllAppends(r, [a, b], [c]);
    DropAllAppends(r, [a], [b]);
    DropOne(r, a);
    DropOne(Drop(r, a), b);
    DropOne(Drop(Drop(r, a), b), c);
    DropOne(Drop(Drop(Drop(r, a), b), c), d);
    DropOne(Drop(Drop(Drop(Drop(r, a), b), c), d), e);
  }

  lemma UserRowsGone(r: Rows, org: string, gone: set<string>, user: string)
    ensures Drop(WithoutChildren(Without(r, org, gone), user), TheUser(user)) == Without(r, org, gone + {user})
  {
  }

  /** The users' statements, in any order and with repetitions. */
  lemma {:induction false} UsersGo(r: Rows, org: string, users: seq<string>)
    requires ForeignKeysHold(Without(r, org, {}))
    ensures NeverTrips(Without(r, org, {}), DeletionsFor(users))
    ensures DropAll(Without(r, org, {}), DeletionsFor(users)) == Without(r, org, set u | u in users)
  {
    hide ForeignKeysHold, Without, Drop;
    var before := Without(r, org, {});
    if users == [] {
      assert (set u | u in users) == {};
      assert DeletionsFor(users)[..0] == [];
    } else {
      var front, last := users[..|users| - 1], users[|users| - 1];
      var ds := DeletionsFor(front);
      UsersGo(r, org, front);
      assert ds[..|ds|] == ds && ForeignKeysHold(DropAll(before, ds[..|ds|]));
      UserGoes(r, org, (set u | u in front), last);
      NeverTripsAppends(before, ds, UserDeletions(last));
      DropAllAppends(before, ds, UserDeletions(last));
      assert (set u | u in users) == (set u | u in front) + {last} by { assert users == front + [last]; }
    }
  }

  /** The rows after an organization is suspended, its active keys revoked. */
  function SuspendedRows(r: Rows, org: string, at: UtcTime): Rows {
    r.(organizations := (set o | o in r.organizations ::
                           if o.id == org
                           then o.(status := Status.Disabled, suspendedAt := Some(o.suspendedAt.GetOr(at)), updatedAt := at)
                           else o),
       apiKeys := (set k | k in r.apiKeys ::
                     if k.organizationId == org && k.status == KeyActive
                     then k.(status := Revoked, revokedAt := Some(k.revokedAt.GetOr(at))) else k))
  }

  /** The organization is disabled and keeps an earlier suspension time; the others stay. */
  ghost predicate IsSuspended(organizations: set<Organization>, org: string, at: UtcTime, after: set<Organization>) {
    && (forall o | o in organizations && o.id != org :: o in after)
    && (forall o | o in organizations && o.id == org ::
          Organization(o.id, o.name, o.slug, o.kind, Status.Disabled, o.nameStatus,
                       if o.suspendedAt.Some? then o.suspendedAt else Some(at), o.createdAt, at) in after)
    && (forall o | o in after :: exists x :: x in organizations && x.id == o.id)
    && (forall o | o in after && o.id == org :: o.status == Status.Disabled && o.suspendedAt.Some?)
  }

  /** No active key of the organization is left; all other keys, and keys already revoked, are as they were. */
  ghost predicate KeysAreEnded(apiKeys: set<ApiKey>, org: string, at: UtcTime, after: set<ApiKey>) {
    && (forall k | k in apiKeys && (k.organizationId != org || k.status == Revoked) :: k in after)
    && (forall k | k in apiKeys && k.organizationId == org && k.status == KeyActive ::
          k.(status := Revoked, revokedAt := if k.revokedAt.Some? then k.revokedAt else Some(at)) in after)
    && (forall k | k in after :: exists x :: x in apiKeys && x.id == k.id)
    && (forall k | k in after && k.organizationId == org :: k.status == Revoked)
  }

  lemma OrganizationIsSuspended(r: Rows, org: string, at: UtcTime)
    ensures IsSuspended(r.organizations, org, at, SuspendedRows(r, org, at).organizations)
  {
    var after := SuspendedRows(r, org, at).organizations;
    forall o | o in r.organizations
      ensures o.id != org ==> o in after
      ensures o.id == org ==> Organization(o.id, o.name, o.slug, o.kind, Status.Disabled, o.nameStatus,
                                           if o.suspendedAt.Some? then o.suspendedAt else Some(at), o.createdAt, at) in after
    {
      var o' := if o.id == org
                then o.(status := Status.Disabled, suspendedAt := Some(o.suspendedAt.GetOr(at)), updatedAt := at) else o;
      assert o' in after;
    }
    forall o | o in after
      ensures (exists x :: x in r.organizations && x.id == o.id)
      ensures o.id == org ==> o.status == Status.Disabled && o.suspendedAt.Some?
    {
      var x :| x in r.organizations
               && o == if x.id == org
                       then x.(status := Status.Disabled, suspendedAt := Some(x.suspendedAt.GetOr(at)), updatedAt := at)
                       else x;
      assert x.id == o.id;
    }
  }

  lemma KeysOfOrganizationEnd(r: Rows, org: string, at: UtcTime)
    ensures KeysAreEnded(r.apiKeys, org, at, SuspendedRows(r, org, at).apiKeys)
  {
    var after := SuspendedRows(r, org, at).apiKeys;
    forall k | k in r.apiKeys
      ensures k.organizationId != org || k.status == Revoked ==> k in after
      ensures k.organizationId == org && k.status == KeyActive ==>
                k.(status := Revoked, revokedAt := if k.revokedAt.Some? then k.revokedAt else Some(at)) in after
    {
      var k' := if k.organizationId == org && k.status == KeyActive
                then k.(status := Revoked, revokedAt := Some(k.revokedAt.GetOr(at))) else k;
      assert k' in after;
    }
    forall k | k in after
      ensures (exists x :: x in r.apiKeys && x.id == k.id) && (k.organizationId == org ==> k.status == Revoked)
    {
      var x :| x in r.apiKeys
               && k == if x.organizationId == org && x.status == KeyActive
                       then x.(status := Revoked, revokedAt := Some(x.revokedAt.GetOr(at))) else x;
      assert x.id == k.id;
    }
  }

  /** Suspension disables the organization and ends its keys, and touches nothing else. */
  lemma SuspensionEndsKeys(r: Rows, org: string, at: UtcTime)
    ensures var after := SuspendedRows(r, org, at);
            && IsSuspended(r.organizations, org, at, after.organizations)
            && KeysAreEnded(r.apiKeys, org, at, after.apiKeys)
            && after == r.(organizations := after.organizations, apiKeys := after.apiKeys)
  {
    hide IsSuspended, KeysAreEnded;
    OrganizationIsSuspended(r, org, at);
    KeysOfOrganizationEnd(r, org, at);
  }

  /** The UPDATE statements ahead of the deletions: suspension, and the memberships disabled. */
  function DisabledTenant(r: Rows, org: string, at: UtcTime): Rows {
    SuspendedRows(r, org, at).(memberships := set m | m in r.memberships ::
                                  if m.organizationId == org then m.(status := Status.Disabled) else m)
  }

  lemma DisablingKeepsForeignKeys(r: Rows, org: string, at: UtcTime)
    requires ForeignKeysHold(r)
    ensures ForeignKeysHold(DisabledTenant(r, org, at))
  {
    var r' := DisabledTenant(r, org, at);
    forall id | HasOrganization(r, id) ensures HasOrganization(r', id) {
      var o :| o in r.organizations && o.id == id;
      var o' := if o.id == org
                then o.(status := Status.Disabled, suspendedAt := Some(o.suspendedAt.GetOr(at)), updatedAt := at) else o;
      assert o' in r'.organizations && o'.id == id;
    }
    assert r'.users == r.users;
    forall m | m in r'.memberships ensures HasOrganization(r', m.organizationId) && HasUser(r', m.userId) {
      var m' :| m' in r.memberships && m == if m'.organizationId == org then m'.(status := Status.Disabled) else m';
      assert HasOrganization(r, m'.organizationId) && HasUser(r, m'.userId);
    }
    forall k | k in r'.apiKeys ensures HasOrganization(r', k.organizationId) && HasUser(r', k.createdBy) {
      var k' :| k' in r.apiKeys
                && k == if k'.organizationId == org && k'.status == KeyActive
                        then k'.(status := Revoked, revokedAt := Some(k'.revokedAt.GetOr(at))) else k';
      assert HasOrganization(r, k'.organizationId) && HasUser(r, k'.createdBy);
    }
  }

  /** What was disabled is deleted: the updates leave no trace. */
  lemma DisablingVanishes(r: Rows, org: string, at: UtcTime, users: set<string>)
    ensures Without(DisabledTenant(r, org, at), org, users) == Without(r, org, users)
    ensures TenantUsers(DisabledTenant(r, org, at), org) == TenantUsers(r, org)
  {
    var r' := DisabledTenant(r, org, at);
    var w', w := Without(r', org, users), Without(r, org, users);
    assert w'.organizations == w.organizations;
    assert w'.memberships == w.memberships;
    assert w'.apiKeys == w.apiKeys;
    forall m | m in r.memberships && m.organizationId == org ensures m.userId in TenantUsers(r', org) {
      assert m.(status := Status.Disabled) in r'.memberships;
    }
  }

  /**
   The whole statement sequence never trips a foreign key on the way, whatever the order of
   the users fetched, and leaves exactly the rows that neither belong to the tenant nor
   concern its members.
   */
  lemma DeletionNeverTrips(r: Rows, org: string, at: UtcTime, users: seq<string>)
    requires ForeignKeysHold(r) && (set u | u in users) == TenantUsers(r, org)
    ensures NeverTrips(DisabledTenant(r, org, at), OrganizationDeletions(org) + DeletionsFor(users))
    ensures DropAll(DisabledTenant(r, org, at), OrganizationDeletions(org) + DeletionsFor(users)) == DeletedRows(r, org)
    ensures ForeignKeysHold(DeletedRows(r, org))
  {
    hide ForeignKeysHold, Without, Drop, OrganizationDeletions, DisabledTenant;
    var first, rest := OrganizationDeletions(org), DeletionsFor(users);
    var disabled := DisabledTenant(r, org, at);
    DisablingKeepsForeignKeys(r, org, at);
    DisablingVanishes(r, org, at, TenantUsers(r, org));
    OrganizationGoes(disabled, org);
    assert first[..|first|] == first && ForeignKeysHold(DropAll(disabled, first[..|first|]));
    UsersGo(disabled, org, users);
    NeverTripsAppends(disabled, first, rest);
    DropAllAppends(disabled, first, rest);
    var ds := first + rest;
    assert ds[..|ds|] == ds && ForeignKeysHold(DropAll(disabled, ds[..|ds|]));
  }

  // ----- the key-value form -----

  predicate IsTenantUser(t: Tables, org: string, user: string) {
    (org, user) in t.memberships
  }

  predicate DeadMembership(t: Tables, org: string, k: (string, string)) {
    k.0 == org || IsTenantUser(t, org, k.1)
  }

  predicate DeadKey(t: Tables, org: string, k: ApiKey) {
    k.organizationId == org || IsTenantUser(t, org, k.createdBy)
  }

  predicate DeadAudit(t: Tables, org: string, e: AuditEvent) {
    e.organizationId == org || IsTenantUser(t, org, e.actorId)
    || (e.targetId.Some? && IsTenantUser(t, org, e.targetId.value))
  }

  predicate DeadMembershipId(t: Tables, org: string, id: string) {
    exists k :: k in t.memberships && DeadMembership(t, org, k) && t.memberships[k].membership.id == id
  }

  /** The entities whose constraint items are deleted. */
  predicate DeadEntity(t: Tables, org: string, id: string) {
    || id == org
    || DeadMembershipId(t, org, id)
    || (id in t.apiKeys && DeadKey(t, org, t.apiKeys[id].apiKey))
    || (id in t.identities && IsTenantUser(t, org, t.identities[id].userId))
  }

  /** The items the deletions leave. */
  function DeletedTables(t: Tables, org: string): Tables {
    Tables(
      map k | k in t.users && !IsTenantUser(t, org, k) :: t.users[k],
      map k | k in t.identities && !IsTenantUser(t, org, t.identities[k].userId) :: t.identities[k],
      map k | k in t.organizations && k != org :: t.organizations[k],
      map k | k in t.memberships && !DeadMembership(t, org, k) :: t.memberships[k],
      map k | k in t.apiKeys && !DeadKey(t, org, t.apiKeys[k].apiKey) :: t.apiKeys[k],
      map k | k in t.audits && !DeadAudit(t, org, t.audits[k]) :: t.audits[k],
      map c | c in t.constraints && !DeadEntity(t, org, t.constraints[c].entityId) :: t.constraints[c],
      map k | k in t.sessions && !IsTenantUser(t, org, t.sessions[k].userId) :: t.sessions[k])
  }

  /** Every entity id carries its kind's prefix. */
  predicate PrefixedIds(index: map<ConstraintKey, ConstraintItem>) {
    forall c | c in index ::
      match c
      case SlugKey(_) => "org_" <= index[c].entityId
      case IdentityKey(_) => "extid_" <= index[c].entityId
      case SegmentKey(_) => "key_" <= index[c].entityId
      case MembershipIdKey(_) => "mem_" <= index[c].entityId
  }

  lemma PrefixesTellKinds(c: ConstraintKey, d: ConstraintKey, index: map<ConstraintKey, ConstraintItem>)
    requires PrefixedIds(index) && c in index && d in index && index[c].entityId == index[d].entityId
    ensures c.SlugKey? <==> d.SlugKey?
    ensures c.IdentityKey? <==> d.IdentityKey?
    ensures c.SegmentKey? <==> d.SegmentKey?
  {
    assert index[c].entityId[0] == index[d].entityId[0];
  }

  /** A constraint item is deleted exactly when the entity it guards is. */
  lemma DeadConstraints(t: Tables, org: string, c: ConstraintKey)
    requires Keyed(t) && PrefixedIds(t.constraints) && org in t.organizations && c in t.constraints
    ensures var id := t.constraints[c].entityId;
            DeadEntity(t, org, id) <==>
              match c
              case SlugKey(_) => id == org
              case IdentityKey(_) => IsTenantUser(t, org, t.identities[id].userId)
              case SegmentKey(_) => DeadKey(t, org, t.apiKeys[id].apiKey)
              case MembershipIdKey(_) => DeadMembershipId(t, org, id)
  {
    hide SortKey, IdentityText, PrefixedIds, DeadMembershipId, DeadKey, IsTenantUser, UsersOk, MembershipsOk, AuditsOk,
         SessionsOk;
    var id := t.constraints[c].entityId;
    if id == org {
      PrefixesTellKinds(c, SlugKey(t.organizations[org].slug), t.constraints);
    }
    if id in t.apiKeys {
      PrefixesTellKinds(c, SegmentKey(t.apiKeys[id].apiKey.keyId), t.constraints);
    }
    if id in t.identities {
      PrefixesTellKinds(c, IdentityKeyOf(t.identities[id]), t.constraints);
    }
    if DeadMembershipId(t, org, id) {
      DeadMembershipsAreGuarded(t, org, id);
      PrefixesTellKinds(c, MembershipIdKey(id), t.constraints);
    }
  }

  lemma DeadMembershipsAreGuarded(t: Tables, org: string, id: string)
    requires MembershipsOk(t.memberships, t.constraints) && DeadMembershipId(t, org, id)
    ensures MembershipIdKey(id) in t.constraints && t.constraints[MembershipIdKey(id)].entityId == id
  {
    hide SortKey;
  }

  lemma SlugsAfterDeletion(t: Tables, org: string)
    requires Keyed(t) && PrefixedIds(t.constraints) && org in t.organizations
    ensures var t' := DeletedTables(t, org); OrganizationsOk(t'.organizations, t'.constraints)
  {
    hide SortKey, IdentityText, PrefixedIds, DeadEntity, DeadMembership, DeadKey, IsTenantUser, DeadAudit,
         UsersOk, IdentitiesOk, MembershipsOk, ApiKeysOk, AuditsOk, SessionsOk;
    forall c | c in t.constraints && c.SlugKey?
      ensures DeadEntity(t, org, t.constraints[c].entityId) <==> t.constraints[c].entityId == org
    {
      DeadConstraints(t, org, c);
    }
  }

  lemma IdentitiesAfterDeletion(t: Tables, org: string)
    requires Keyed(t) && PrefixedIds(t.constraints) && org in t.organizations
    ensures var t' := DeletedTables(t, org); IdentitiesOk(t'.identities, t'.constraints)
  {
    hide SortKey, IdentityText, PrefixedIds, DeadEntity, DeadMembership, DeadKey, IsTenantUser, DeadAudit,
         UsersOk, OrganizationsOk, MembershipsOk, ApiKeysOk, AuditsOk, SessionsOk;
    forall c | c in t.constraints && c.IdentityKey?
      ensures DeadEntity(t, org, t.constraints[c].entityId)
         <==> IsTenantUser(t, org, t.identities[t.constraints[c].entityId].userId)
    {
      DeadConstraints(t, org, c);
    }
  }

  lemma KeysAfterDeletion(t: Tables, org: string)
    requires Keyed(t) && PrefixedIds(t.constraints) && org in t.organizations
    ensures var t' := DeletedTables(t, org); ApiKeysOk(t'.apiKeys, t'.constraints)
  {
    hide SortKey, IdentityText, PrefixedIds, DeadEntity, DeadMembership, DeadKey, IsTenantUser, DeadAudit,
         UsersOk, OrganizationsOk, MembershipsOk, IdentitiesOk, AuditsOk, SessionsOk;
    forall c | c in t.constraints && c.SegmentKey?
      ensures DeadEntity(t, org, t.constraints[c].entityId)
         <==> DeadKey(t, org, t.apiKeys[t.constraints[c].entityId].apiKey)
    {
      DeadConstraints(t, org, c);
    }
  }

  lemma GuardsAfterDeletion(t: Tables, org: string)
    requires Keyed(t) && PrefixedIds(t.constraints) && org in t.organizations
    ensures var t' := DeletedTables(t, org); MembershipsOk(t'.memberships, t'.constraints)
  {
    hide SortKey, IdentityText, PrefixedIds, DeadEntity, DeadMembership, DeadKey, IsTenantUser, DeadAudit,
         UsersOk, OrganizationsOk, ApiKeysOk, IdentitiesOk, AuditsOk, SessionsOk;
    forall k | k in t.memberships && !DeadMembership(t, org, k)
      ensures !DeadEntity(t, org, t.memberships[k].membership.id)
    {
      assert !DeadMembershipId(t, org, t.memberships[k].membership.id);
      DeadConstraints(t, org, MembershipIdKey(t.memberships[k].membership.id));
    }
  }

  lemma ReferencesAfterDeletion(t: Tables, org: string)
    requires Valid(t)
    ensures ReferencesHold(DeletedTables(t, org))
  {
    hide SortKey, IdentityText, DeadEntity, UsersOk, OrganizationsOk, ApiKeysOk, IdentitiesOk, MembershipsOk,
         AuditsOk, SessionsOk;
  }

  lemma TenantUsersAgree(t: Tables, org: string, user: string)
    requires Keyed(t)
    ensures user in TenantUsers(RowsOf(t), org) <==> IsTenantUser(t, org, user)
  {
    hide SortKey, IdentityText, UsersOk, OrganizationsOk, ApiKeysOk, IdentitiesOk, AuditsOk, SessionsOk;
    if IsTenantUser(t, org, user) {
      assert t.memberships[(org, user)].membership in RowsOf(t).memberships;
    }
  }

  lemma MembershipsAfterDeletion(t: Tables, org: string)
    requires Keyed(t)
    ensures MembershipRows(DeletedTables(t, org).memberships) == DeletedRows(RowsOf(t), org).memberships
  {
    hide SortKey, IdentityText, DeadEntity, TenantUsers, UsersOk, OrganizationsOk, ApiKeysOk, IdentitiesOk, AuditsOk,
         SessionsOk;
    forall user ensures user in TenantUsers(RowsOf(t), org) <==> IsTenantUser(t, org, user) {
      TenantUsersAgree(t, org, user);
    }
    var left, rows := DeletedTables(t, org).memberships, DeletedRows(RowsOf(t), org).memberships;
    forall m | m in rows ensures m in MembershipRows(left) {
      assert t.memberships[PairOf(m)].membership == m;
      assert left[PairOf(m)].membership == m;
    }
    forall m | m in MembershipRows(left) ensures m in rows {
      var k :| k in left && left[k].membership == m;
      assert t.memberships[k].membership == m;
    }
  }

  lemma AuditsAfterDeletion(t: Tables, org: string)
    requires Keyed(t)
    ensures DeletedTables(t, org).audits.Values == DeletedRows(RowsOf(t), org).audits
  {
    hide SortKey, IdentityText, DeadEntity, TenantUsers, UsersOk, OrganizationsOk, ApiKeysOk, IdentitiesOk, MembershipsOk,
         SessionsOk;
    forall user ensures user in TenantUsers(RowsOf(t), org) <==> IsTenantUser(t, org, user) {
      TenantUsersAgree(t, org, user);
    }
    var left, rows := DeletedTables(t, org).audits, DeletedRows(RowsOf(t), org).audits;
    forall e | e in rows ensures e in left.Values {
      assert t.audits[e.id] == e;
      assert left[e.id] == e;
    }
  }

  lemma PeopleAfterDeletion(t: Tables, org: string)
    requires Keyed(t)
    ensures var r, r' := RowsOf(DeletedTables(t, org)), DeletedRows(RowsOf(t), org);
            r.users == r'.users && r.identities == r'.identities && r.sessions == r'.sessions
  {
    hide SortKey, IdentityText, DeadEntity, TenantUsers, OrganizationsOk, ApiKeysOk, MembershipsOk, AuditsOk;
    forall user ensures user in TenantUsers(RowsOf(t), org) <==> IsTenantUser(t, org, user) {
      TenantUsersAgree(t, org, user);
    }
    var left, r' := DeletedTables(t, org), DeletedRows(RowsOf(t), org);
    forall u | u in r'.users ensures u in UserRows(left.users) {
      assert FromUserItem(left.users[u.id]) == u;
    }
    forall i | i in r'.identities ensures i in left.identities.Values {
      assert left.identities[i.id] == i;
    }
    forall s | s in r'.sessions ensures s in left.sessions.Values {
      assert left.sessions[s.id] == s;
    }
  }

  lemma HoldingsAfterDeletion(t: Tables, org: string)
    requires Keyed(t)
    ensures var r, r' := RowsOf(DeletedTables(t, org)), DeletedRows(RowsOf(t), org);
            r.organizations == r'.organizations && r.apiKeys == r'.apiKeys
  {
    hide SortKey, IdentityText, DeadEntity, TenantUsers, UsersOk, IdentitiesOk, MembershipsOk, AuditsOk, SessionsOk;
    forall user ensures user in TenantUsers(RowsOf(t), org) <==> IsTenantUser(t, org, user) {
      TenantUsersAgree(t, org, user);
    }
    var left, r' := DeletedTables(t, org), DeletedRows(RowsOf(t), org);
    forall o | o in r'.organizations ensures o in left.organizations.Values {
      assert left.organizations[o.id] == o;
    }
    forall k | k in r'.apiKeys ensures k in ApiKeyRows(left.apiKeys) {
      assert left.apiKeys[k.id].apiKey == k;
    }
  }

  lemma RowsAfterDeletion(t: Tables, org: string)
    requires Keyed(t)
    ensures RowsOf(DeletedTables(t, org)) == DeletedRows(RowsOf(t), org)
  {
    hide Keyed, DeletedRows, DeletedTables;
    PeopleAfterDeletion(t, org);
    HoldingsAfterDeletion(t, org);
    MembershipsAfterDeletion(t, org);
    AuditsAfterDeletion(t, org);
  }

  /**
   On a valid state the key-value deletion leaves a valid state: no dangling reference, and
   a constraint index that is again the exact inverse of the tables. Its rows are the rows
   the SQL statements leave.
   */
  lemma DeletionAgrees(t: Tables, org: string)
    requires Valid(t) && PrefixedIds(t.constraints) && org in t.organizations
    ensures Valid(DeletedTables(t, org))
    ensures RowsOf(DeletedTables(t, org)) == DeletedRows(RowsOf(t), org)
  {
    hide SortKey, IdentityText, DeadEntity, DeadMembership, DeadKey, IsTenantUser, DeadAudit, PrefixedIds,
         OrganizationsOk, ApiKeysOk, IdentitiesOk, MembershipsOk, ReferencesHold, RowsOf;
    SlugsAfterDeletion(t, org);
    IdentitiesAfterDeletion(t, org);
    KeysAfterDeletion(t, org);
    GuardsAfterDeletion(t, org);
    ReferencesAfterDeletion(t, org);
    RowsAfterDeletion(t, org);
  }
}
