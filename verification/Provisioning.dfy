/**
 What the services submit: the account of a first login, and an organization with its
 owner. Both are built purely from their arguments, one clock reading and fresh ids.
 */
module Provisioning {
  import opened Outcomes
  import opened Timestamps
  import opened Domain
  import opened Keys
  import opened Relational
  import opened Items
  import opened Transactions
  import opened Batches
  import opened Refinement
  import opened Faults
  import opened BatchWrites

  // ----- the batch of one first login -----

  datatype Profile = Profile(subject: string, displayName: string, email: string)

  datatype Ids = Ids(user: string, organization: string, identity: string, membership: string,
                     userAudit: string, organizationAudit: string, membershipAudit: string)

  function BuildBatch(p: Profile, now: UtcTime, ids: Ids): UserBatch {
    UserBatch(
      User(ids.user, p.displayName, p.email, Active, PlainUser, now, now),
      ExternalIdentity(ids.identity, ids.user, Cognito, p.subject, None, now),
      Organization(ids.organization, p.displayName + "'s Workspace", "personal-" + ids.user, Personal, Active,
                   Placeholder, None, now, now),
      Membership(ids.membership, ids.organization, ids.user, Owner, Active, now),
      [AuditEvent(ids.userAudit, ids.organization, ids.user, "user.created", Some(ids.user), map["provider" := "cognito"], now),
       AuditEvent(ids.organizationAudit, ids.organization, ids.user, "organization.created", Some(ids.organization),
                  map["type" := "personal"], now),
       AuditEvent(ids.membershipAudit, ids.organization, ids.user, "membership.created", Some(ids.membership),
                  map["role" := "owner"], now)])
  }

  /** The position of the identity constraint among the puts. */
  const RACE_POSITION: nat := 2

  /** The ten puts of a first login; all parents are in the batch, so there are no checks. */
  function LoginWrites(b: UserBatch): seq<Write>
    requires |b.audits| == 3
  {
    [PutUser(ToUserItem(b.user)),
     PutIdentity(b.identity),
     PutConstraint(IdentityKeyOf(b.identity), ConstraintItem(b.identity.id, Some(b.identity.userId))),
     PutOrganization(b.organization),
     PutConstraint(SlugKey(b.organization.slug), ConstraintItem(b.organization.id, None)),
     PutMembership(ToMembershipItem(b.membership, b.organization.createdAt)),
     PutConstraint(MembershipIdKey(b.membership.id), ConstraintItem(b.membership.id, None)),
     PutAudit(b.audits[0]), PutAudit(b.audits[1]), PutAudit(b.audits[2])]
  }

  function LoginConflicts(): seq<Conflict> {
    UserEntityConflicts() + AuditConflictsOf(3)
  }

  /** The transaction of a first login is its batch's transaction, whatever the store holds. */
  lemma LoginWritesAreTheBatch(t: Tables, p: Profile, now: UtcTime, ids: Ids)
    ensures var b := BuildBatch(p, now, ids);
            && WritesFor(t, UserBatchRows(b), []) == LoginWrites(b) && Covers([], UserBatchRows(b))
            && LoginConflicts() == AllConflicts(UserBatchRows(b), [], true)
            && NoneSuspended(UserBatchRows(b))
  {
    hide SortKey, IdentityText, PutsForAll, Covers, AllConflicts;
    var b := BuildBatch(p, now, ids);
    UserWritesAreTheBatch(t, b, b.organization.createdAt, []);
    assert LoginWrites(b) == UserEntityWrites(b, b.organization.createdAt) + AuditPutsOf(b.audits);
    UserBatchCovers(b, []);
    UserConflictsAlign(b, []);
  }

  // ----- the batch of one organization -----

  datatype OrganizationIds = OrganizationIds(organization: string, membership: string,
                                             organizationAudit: string, membershipAudit: string)

  function KindText(kind: OrganizationType): string {
    match kind
    case Personal => "personal"
    case Customer => "customer"
    case Internal => "internal"
  }

  /** The creation batch: the creator is always the owner. */
  function BuildOrganizationBatch(creator: string, name: string, slug: string, kind: OrganizationType, now: UtcTime,
                                  ids: OrganizationIds): OrganizationBatch
  {
    OrganizationBatch(
      Organization(ids.organization, name, slug, kind, Active, Confirmed, None, now, now),
      Membership(ids.membership, ids.organization, creator, Owner, Active, now),
      [AuditEvent(ids.organizationAudit, ids.organization, creator, "organization.created",
                  Some(ids.organization), map["type" := KindText(kind)], now),
       AuditEvent(ids.membershipAudit, ids.organization, creator, "membership.created",
                  Some(ids.membership), map["role" := "owner"], now)])
  }

  /** Six puts, and a check of the one parent the batch does not create: the owner. */
  function OrganizationWrites(b: OrganizationBatch): seq<Write>
    requires |b.audits| == 2
  {
    [PutOrganization(b.organization),
     PutConstraint(SlugKey(b.organization.slug), ConstraintItem(b.organization.id, None)),
     PutMembership(ToMembershipItem(b.membership, b.organization.createdAt)),
     PutConstraint(MembershipIdKey(b.membership.id), ConstraintItem(b.membership.id, None)),
     PutAudit(b.audits[0]), PutAudit(b.audits[1]),
     RequireUser(b.membership.userId)]
  }

  function OrganizationConflicts(): seq<Conflict> {
    OrganizationEntityConflicts() + AuditConflictsOf(2) + [ReferenceConflict]
  }

  /** The transaction of an organization's creation is its batch's; its owner is the one parent from outside. */
  lemma CreationWritesAreTheBatch(t: Tables, creator: string, name: string, slug: string, kind: OrganizationType,
                                  now: UtcTime, ids: OrganizationIds)
    ensures var b, parents := BuildOrganizationBatch(creator, name, slug, kind, now, ids), [UserParent(creator)];
            && WritesFor(t, OrganizationBatchRows(b), parents) == OrganizationWrites(b)
            && Covers(parents, OrganizationBatchRows(b))
            && OrganizationConflicts() == AllConflicts(OrganizationBatchRows(b), parents, false)
            && NoneSuspended(OrganizationBatchRows(b))
  {
    hide SortKey, IdentityText, PutsForAll, Covers, AllConflicts;
    var b, parents := BuildOrganizationBatch(creator, name, slug, kind, now, ids), [UserParent(creator)];
    OrganizationWritesAreTheBatch(t, b, b.organization.createdAt, parents);
    ChecksAreListed(parents);
    assert ChecksFor(parents) == [RequireUser(creator)];
    assert OrganizationWrites(b)
        == OrganizationEntityWrites(b, b.organization.createdAt) + AuditPutsOf(b.audits) + [RequireUser(creator)];
    OrganizationBatchCovers(b, parents);
    OrganizationConflictsAlign(b, parents);
  }
}
