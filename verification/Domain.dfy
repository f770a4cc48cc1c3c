/** The entities both adapters store, and the errors their operations report. */
module Domain {
  import opened Outcomes
  import opened Timestamps

  datatype Status = Active | Disabled
  datatype ApplicationRole = PlainUser | Admin
  datatype MembershipRole = Owner | OrganizationAdmin | Member | Viewer
  datatype OrganizationType = Personal | Customer | Internal
  datatype NameStatus = Placeholder | Confirmed
  datatype Provider = Cognito | Shopify | Google | Microsoft | Oidc
  datatype Environment = Live | Test
  datatype KeyStatus = KeyActive | Revoked

  /** A tenant is never the empty text, so absence can be stored as the empty text. */
  type Tenant = t: string | t != "" witness "t"

  datatype User = User(id: string, displayName: string, email: string, status: Status,
                       role: ApplicationRole, createdAt: UtcTime, updatedAt: UtcTime)

  datatype ExternalIdentity = ExternalIdentity(id: string, userId: string, provider: Provider,
                                               subject: string, tenant: Option<Tenant>, createdAt: UtcTime)

  datatype Organization = Organization(id: string, name: string, slug: string, kind: OrganizationType,
                                       status: Status, nameStatus: NameStatus, suspendedAt: Option<UtcTime>,
                                       createdAt: UtcTime, updatedAt: UtcTime)

  datatype Membership = Membership(id: string, organizationId: string, userId: string,
                                   role: MembershipRole, status: Status, createdAt: UtcTime)

  datatype ApiKey = ApiKey(id: string, organizationId: string, createdBy: string, name: string,
                           keyId: string, secretHash: string, environment: Environment, scopes: seq<string>,
                           status: KeyStatus, createdAt: UtcTime, expiresAt: Option<UtcTime>,
                           revokedAt: Option<UtcTime>)

  datatype AuditEvent = AuditEvent(id: string, organizationId: string, actorId: string, action: string,
                                   targetId: Option<string>, metadata: map<string, string>, createdAt: UtcTime)

  datatype Session = Session(id: string, userId: string, expiresAt: UtcTime)

  datatype DuplicateKind =
    | EntityId
    | ExternalIdentityTuple
    | MembershipPair
    | OrganizationSlug
    | ApiKeySegment

  /** The domain's storage errors; Failed is the retryable base error. */
  datatype StorageError =
    | Duplicate(kind: DuplicateKind)
    | IdentityRace(winner: Option<string>)
    | ReferenceNotFound
    | EntityNotFound
    | LastActiveAdministrator
    | Failed

  /** The five entities of one first login. */
  datatype UserBatch = UserBatch(user: User, identity: ExternalIdentity, organization: Organization,
                                 membership: Membership, audits: seq<AuditEvent>)

  /** An organization, its first membership and their audit events. */
  datatype OrganizationBatch = OrganizationBatch(organization: Organization, membership: Membership,
                                                 audits: seq<AuditEvent>)

  function TenantText(tenant: Option<Tenant>): string {
    if tenant.Some? then tenant.value else ""
  }

  function IdentityTuple(i: ExternalIdentity): (Provider, string, string) {
    (i.provider, i.subject, TenantText(i.tenant))
  }
}
