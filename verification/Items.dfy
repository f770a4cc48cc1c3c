/**
 The key-value form of the store: one item map per table, the unique-constraint table that
 stands in for UNIQUE indexes, and the attributes copied onto items for the listing indexes.
 */
module Items {
  import opened Outcomes
  import opened Timestamps
  import opened Domain
  import opened Keys
  import Relational

  /** role, gRole and gEmail are absent on items older than the attribute. */
  datatype UserItem = UserItem(id: string, displayName: string, email: string, status: Status,
                               role: Option<ApplicationRole>, createdAt: UtcTime, updatedAt: UtcTime,
                               gEmail: Option<string>, gRole: Option<ApplicationRole>)

  datatype MembershipItem = MembershipItem(membership: Membership, gOrg: string, gCreated: string,
                                           gUser: string, gOrgCreated: string)

  datatype ApiKeyItem = ApiKeyItem(apiKey: ApiKey, gOrg: string, gCreated: string)

  datatype ConstraintItem = ConstraintItem(entityId: string, userId: Option<string>)

  datatype Tables = Tables(users: map<string, UserItem>, identities: map<string, ExternalIdentity>,
                           organizations: map<string, Organization>,
                           memberships: map<(string, string), MembershipItem>,
                           apiKeys: map<string, ApiKeyItem>, audits: map<string, AuditEvent>,
                           constraints: map<ConstraintKey, ConstraintItem>, sessions: map<string, Session>)

  // ----- item codecs -----

  function ToUserItem(u: User): UserItem {
    UserItem(u.id, u.displayName, u.email, u.status, Some(u.role), u.createdAt, u.updatedAt, Some(u.email), Some(u.role))
  }

  /** An item without a role reads back as a plain user. */
  function FromUserItem(i: UserItem): User {
    User(i.id, i.displayName, i.email, i.status, i.role.GetOr(PlainUser), i.createdAt, i.updatedAt)
  }

  function ToMembershipItem(m: Membership, organizationCreatedAt: UtcTime): MembershipItem {
    MembershipItem(m, m.organizationId, SortKey(m.createdAt, m.id), m.userId,
                   SortKey(organizationCreatedAt, m.organizationId))
  }

  function ToApiKeyItem(k: ApiKey): ApiKeyItem {
    ApiKeyItem(k, k.organizationId, SortKey(k.createdAt, k.id))
  }

  function PairOf(m: Membership): (string, string) {
    (m.organizationId, m.userId)
  }

  function IdentityKeyOf(i: ExternalIdentity): ConstraintKey {
    IdentityKey(IdentityText(i.provider, i.subject, i.tenant))
  }

  // ----- what every reachable state satisfies, table by table -----

  /** Keys match, and copied attributes equal what they copy where they are present. */
  ghost predicate UsersOk(users: map<string, UserItem>) {
    forall k | k in users ::
      && users[k].id == k
      && (users[k].gRole.Some? ==> users[k].gRole == users[k].role)
      && (users[k].gEmail.Some? ==> users[k].gEmail == Some(users[k].email))
  }

  /** The slug items are exactly the inverse of the organizations table. */
  ghost predicate OrganizationsOk(organizations: map<string, Organization>, index: map<ConstraintKey, ConstraintItem>) {
    && (forall k | k in organizations ::
          && organizations[k].id == k
          && SlugKey(organizations[k].slug) in index
          && index[SlugKey(organizations[k].slug)] == ConstraintItem(k, None))
    && (forall c | c in index && c.SlugKey? ::
          index[c].entityId in organizations && organizations[index[c].entityId].slug == c.slug)
  }

  /** The identity items are exactly the inverse of the external-identities table. */
  ghost predicate IdentitiesOk(identities: map<string, ExternalIdentity>, index: map<ConstraintKey, ConstraintItem>) {
    && (forall k | k in identities ::
          && identities[k].id == k
          && IdentityKeyOf(identities[k]) in index
          && index[IdentityKeyOf(identities[k])] == ConstraintItem(k, Some(identities[k].userId)))
    && (forall c | c in index && c.IdentityKey? ::
          index[c].entityId in identities && IdentityKeyOf(identities[index[c].entityId]) == c)
  }

  /** The credential-segment items are exactly the inverse of the api-keys table. */
  ghost predicate ApiKeysOk(apiKeys: map<string, ApiKeyItem>, index: map<ConstraintKey, ConstraintItem>) {
    && (forall k | k in apiKeys ::
          && apiKeys[k].apiKey.id == k
          && apiKeys[k] == ToApiKeyItem(apiKeys[k].apiKey)
          && SegmentKey(apiKeys[k].apiKey.keyId) in index
          && index[SegmentKey(apiKeys[k].apiKey.keyId)] == ConstraintItem(k, None))
    && (forall c | c in index && c.SegmentKey? ::
          index[c].entityId in apiKeys && apiKeys[index[c].entityId].apiKey.keyId == c.segment)
  }

  /** Every membership is guarded by its record id; a guard may outlive its membership. */
  ghost predicate MembershipsOk(memberships: map<(string, string), MembershipItem>,
                                index: map<ConstraintKey, ConstraintItem>) {
    && (forall k | k in memberships ::
          && k == PairOf(memberships[k].membership)
          && memberships[k].gOrg == k.0 && memberships[k].gUser == k.1
          && memberships[k].gCreated == SortKey(memberships[k].membership.createdAt, memberships[k].membership.id)
          && MembershipIdKey(memberships[k].membership.id) in index)
    && (forall k, l | k in memberships && l in memberships
                      && memberships[k].membership.id == memberships[l].membership.id :: k == l)
    && (forall c | c in index && c.MembershipIdKey? :: index[c] == ConstraintItem(c.membershipId, None))
  }

  ghost predicate AuditsOk(audits: map<string, AuditEvent>) {
    forall k | k in audits :: audits[k].id == k
  }

  ghost predicate SessionsOk(sessions: map<string, Session>) {
    forall k | k in sessions :: sessions[k].id == k
  }

  ghost predicate Keyed(t: Tables) {
    && UsersOk(t.users)
    && IdentitiesOk(t.identities, t.constraints)
    && OrganizationsOk(t.organizations, t.constraints)
    && MembershipsOk(t.memberships, t.constraints)
    && ApiKeysOk(t.apiKeys, t.constraints)
    && AuditsOk(t.audits)
    && SessionsOk(t.sessions)
  }

  /** No child without its parents, and memberships sort by their organization's creation. */
  ghost predicate ReferencesHold(t: Tables) {
    && (forall k | k in t.identities :: t.identities[k].userId in t.users)
    && (forall k | k in t.memberships ::
          && k.0 in t.organizations && k.1 in t.users
          && t.memberships[k].gOrgCreated == SortKey(t.organizations[k.0].createdAt, k.0))
    && (forall k | k in t.apiKeys ::
          t.apiKeys[k].apiKey.organizationId in t.organizations && t.apiKeys[k].apiKey.createdBy in t.users)
    && (forall k | k in t.audits :: t.audits[k].organizationId in t.organizations)
  }

  ghost predicate Valid(t: Tables) {
    Keyed(t) && ReferencesHold(t)
  }

  // ----- adding one item and its constraint -----

  // A constraint of one kind says nothing about the tables of the others.

  lemma OrganizationsIgnore(organizations: map<string, Organization>, index: map<ConstraintKey, ConstraintItem>,
                            key: ConstraintKey, item: ConstraintItem)
    requires OrganizationsOk(organizations, index) && !key.SlugKey?
    ensures OrganizationsOk(organizations, index[key := item])
  {
  }

  lemma IdentitiesIgnore(identities: map<string, ExternalIdentity>, index: map<ConstraintKey, ConstraintItem>,
                         key: ConstraintKey, item: ConstraintItem)
    requires IdentitiesOk(identities, index) && !key.IdentityKey?
    ensures IdentitiesOk(identities, index[key := item])
  {
  }

  lemma ApiKeysIgnore(apiKeys: map<string, ApiKeyItem>, index: map<ConstraintKey, ConstraintItem>,
                      key: ConstraintKey, item: ConstraintItem)
    requires ApiKeysOk(apiKeys, index) && !key.SegmentKey?
    ensures ApiKeysOk(apiKeys, index[key := item])
  {
    hide SortKey;
  }

  lemma MembershipsIgnore(memberships: map<(string, string), MembershipItem>, index: map<ConstraintKey, ConstraintItem>,
                          key: ConstraintKey, item: ConstraintItem)
    requires MembershipsOk(memberships, index) && !key.MembershipIdKey?
    ensures MembershipsOk(memberships, index[key := item])
  {
    hide SortKey;
  }

  lemma AddOrganization(t: Tables, o: Organization)
    requires OrganizationsOk(t.organizations, t.constraints)
    requires o.id !in t.organizations && SlugKey(o.slug) !in t.constraints
    ensures OrganizationsOk(t.organizations[o.id := o], t.constraints[SlugKey(o.slug) := ConstraintItem(o.id, None)])
  {
  }

  lemma AddIdentity(t: Tables, i: ExternalIdentity)
    requires IdentitiesOk(t.identities, t.constraints)
    requires i.id !in t.identities && IdentityKeyOf(i) !in t.constraints
    ensures IdentitiesOk(t.identities[i.id := i], t.constraints[IdentityKeyOf(i) := ConstraintItem(i.id, Some(i.userId))])
  {
  }

  lemma AddApiKey(t: Tables, k: ApiKey)
    requires ApiKeysOk(t.apiKeys, t.constraints)
    requires k.id !in t.apiKeys && SegmentKey(k.keyId) !in t.constraints
    ensures ApiKeysOk(t.apiKeys[k.id := ToApiKeyItem(k)], t.constraints[SegmentKey(k.keyId) := ConstraintItem(k.id, None)])
  {
    hide SortKey;
  }

  lemma AddMembership(t: Tables, m: Membership, createdAt: UtcTime)
    requires MembershipsOk(t.memberships, t.constraints)
    requires PairOf(m) !in t.memberships && MembershipIdKey(m.id) !in t.constraints
    ensures MembershipsOk(t.memberships[PairOf(m) := ToMembershipItem(m, createdAt)],
                          t.constraints[MembershipIdKey(m.id) := ConstraintItem(m.id, None)])
  {
    hide SortKey;
  }

  // ----- the relational state an item state stands for -----

  function UserRows(users: map<string, UserItem>): set<User> {
    set k | k in users :: FromUserItem(users[k])
  }

  function MembershipRows(memberships: map<(string, string), MembershipItem>): set<Membership> {
    set k | k in memberships :: memberships[k].membership
  }

  function ApiKeyRows(apiKeys: map<string, ApiKeyItem>): set<ApiKey> {
    set k | k in apiKeys :: apiKeys[k].apiKey
  }

  function RowsOf(t: Tables): Relational.Rows {
    Relational.Rows(UserRows(t.users), t.identities.Values, t.organizations.Values, MembershipRows(t.memberships),
                    ApiKeyRows(t.apiKeys), t.audits.Values, t.sessions.Values)
  }

  lemma NewValue<V>(m: map<string, V>, k: string, v: V)
    requires k !in m
    ensures m[k := v].Values == m.Values + {v}
  {
    var after := m[k := v];
    assert after[k] == v;
    forall x | x in m.Values ensures x in after.Values {
      var j :| j in m && m[j] == x;
      assert after[j] == x;
    }
  }

  lemma ParentsAgree(t: Tables, id: string)
    requires Keyed(t)
    ensures Relational.HasUser(RowsOf(t), id) <==> id in t.users
    ensures Relational.HasOrganization(RowsOf(t), id) <==> id in t.organizations
  {
    if id in t.users {
      assert FromUserItem(t.users[id]) in RowsOf(t).users;
    }
    if id in t.organizations {
      assert t.organizations[id] in RowsOf(t).organizations;
    }
  }

  /** A valid item state stands for rows that satisfy every declared constraint. */
  lemma ValidTablesHaveIntegrity(t: Tables)
    requires Valid(t)
    ensures Relational.Integrity(RowsOf(t))
  {
    ForeignKeysAgree(t);
    UniqueKeysAgree(t);
  }

  lemma UniqueKeysAgree(t: Tables)
    requires Keyed(t)
    ensures Relational.UniqueKeysHold(RowsOf(t))
  {
    IdentitiesAreUnique(t);
    OrganizationsAreUnique(t);
    MembershipsAreUnique(t);
    ApiKeysAreUnique(t);
    assert forall x, y | x in RowsOf(t).users && y in RowsOf(t).users && x.id == y.id :: x == y;
  }

  lemma MembershipsAreUnique(t: Tables)
    requires Keyed(t)
    ensures Relational.UniqueMemberships(RowsOf(t).memberships)
  {
  }

  lemma ForeignKeysAgree(t: Tables)
    requires Valid(t)
    ensures Relational.ForeignKeysHold(RowsOf(t))
  {
    var r := RowsOf(t);
    forall x | x in r.identities ensures Relational.HasUser(r, x.userId) {
      ParentsAgree(t, x.userId);
    }
    forall x | x in r.memberships ensures Relational.HasOrganization(r, x.organizationId) && Relational.HasUser(r, x.userId) {
      ParentsAgree(t, x.organizationId);
      ParentsAgree(t, x.userId);
    }
    forall x | x in r.apiKeys ensures Relational.HasOrganization(r, x.organizationId) && Relational.HasUser(r, x.createdBy) {
      ParentsAgree(t, x.organizationId);
      ParentsAgree(t, x.createdBy);
    }
    forall x | x in r.audits ensures Relational.HasOrganization(r, x.organizationId) {
      ParentsAgree(t, x.organizationId);
    }
  }

  lemma IdentitiesAreUnique(t: Tables)
    requires Keyed(t)
    ensures Relational.UniqueIdentities(RowsOf(t).identities)
  {
    forall x, y | x in RowsOf(t).identities && y in RowsOf(t).identities && IdentityTuple(x) == IdentityTuple(y)
      ensures x == y
    {
      assert t.identities[x.id] == x && t.identities[y.id] == y;
      assert x.tenant == y.tenant;
      assert t.constraints[IdentityKeyOf(x)].entityId == x.id;
    }
  }

  lemma OrganizationsAreUnique(t: Tables)
    requires Keyed(t)
    ensures Relational.UniqueOrganizations(RowsOf(t).organizations)
  {
    forall x, y | x in RowsOf(t).organizations && y in RowsOf(t).organizations && x.slug == y.slug
      ensures x == y
    {
      assert t.organizations[x.id] == x && t.organizations[y.id] == y;
      assert t.constraints[SlugKey(x.slug)].entityId == x.id;
    }
  }

  lemma ApiKeysAreUnique(t: Tables)
    requires Keyed(t)
    ensures Relational.UniqueApiKeys(RowsOf(t).apiKeys)
  {
    forall x, y | x in RowsOf(t).apiKeys && y in RowsOf(t).apiKeys && x.keyId == y.keyId
      ensures x == y
    {
      assert t.apiKeys[x.id].apiKey == x && t.apiKeys[y.id].apiKey == y;
      assert t.constraints[SegmentKey(x.keyId)].entityId == x.id;
    }
  }
}
