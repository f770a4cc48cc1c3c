/**
 How the key-value adapter turns a batch of rows into one transaction: a base put and a
 constraint put per row in statement order, then one check per parent that the batch does
 not create itself.
 */
module Batches {
  import opened Outcomes
  import opened Timestamps
  import opened Domain
  import opened Keys
  import opened Relational
  import opened Items
  import opened Transactions

  /** The creation time copied onto a membership: its organization's, read beforehand. */
  function CreationTime(t: Tables, organizationId: string, otherwise: UtcTime): UtcTime {
    if organizationId in t.organizations then t.organizations[organizationId].createdAt else otherwise
  }

  function PutsFor(t: Tables, row: Row): seq<Write> {
    match row
    case UserRow(u) => [PutUser(ToUserItem(u))]
    case IdentityRow(i) => [PutIdentity(i), PutConstraint(IdentityKeyOf(i), ConstraintItem(i.id, Some(i.userId)))]
    case OrganizationRow(o) => [PutOrganization(o), PutConstraint(SlugKey(o.slug), ConstraintItem(o.id, None))]
    case MembershipRow(m) =>
      [PutMembership(ToMembershipItem(m, CreationTime(t, m.organizationId, m.createdAt))),
       PutConstraint(MembershipIdKey(m.id), ConstraintItem(m.id, None))]
    case ApiKeyRow(k) => [PutApiKey(ToApiKeyItem(k)), PutConstraint(SegmentKey(k.keyId), ConstraintItem(k.id, None))]
    case AuditRow(e) => [PutAudit(e)]
  }

  /** The puts of a batch; a membership sees the organizations put before it. */
  function PutsForAll(t: Tables, rows: seq<Row>): seq<Write> {
    if rows == [] then []
    else
      var before := PutsForAll(t, rows[..|rows| - 1]);
      before + PutsFor(ApplyAll(t, before), rows[|rows| - 1])
  }

  /** The rows create this parent themselves. */
  predicate Creates(rows: seq<Row>, p: Parent) {
    match p
    case UserParent(id) => exists i :: 0 <= i < |rows| && rows[i].UserRow? && rows[i].user.id == id
    case OrganizationParent(id) =>
      exists i :: 0 <= i < |rows| && rows[i].OrganizationRow? && rows[i].organization.id == id
  }

  predicate IsExternal(rows: seq<Row>, p: Parent) {
    exists i :: 0 <= i < |rows| && p in Parents(rows[i]) && !Creates(rows[..i], p)
  }

  function CheckFor(p: Parent): Write {
    match p
    case UserParent(id) => RequireUser(id)
    case OrganizationParent(id) => RequireOrganization(id)
  }

  function ChecksFor(parents: seq<Parent>): seq<Write> {
    if parents == [] then [] else ChecksFor(parents[..|parents| - 1]) + [CheckFor(parents[|parents| - 1])]
  }

  /** The parents to check, each once, in any order. */
  ghost predicate Covers(parents: seq<Parent>, rows: seq<Row>) {
    && (forall p :: p in parents <==> IsExternal(rows, p))
    && (forall i, j | 0 <= i < j < |parents| :: parents[i] != parents[j])
  }

  function WritesFor(t: Tables, rows: seq<Row>, parents: seq<Parent>): seq<Write> {
    PutsForAll(t, rows) + ChecksFor(parents)
  }

  // ----- where the two adapters may differ -----

  /**
   A membership record id whose guard outlived its membership, or an identity tuple whose
   key text belongs to another tuple: the two things the constraint table refuses and a
   UNIQUE index accepts.
   */
  predicate Obstructed(t: Tables, row: Row) {
    match row
    case MembershipRow(m) => MembershipIdKey(m.id) in t.constraints && !IdTaken(RowsOf(t), row)
    case IdentityRow(i) => IdentityKeyOf(i) in t.constraints && !UniqueTaken(RowsOf(t), row)
    case _ => false
  }

  predicate Unobstructed(t: Tables, rows: seq<Row>) {
    rows == [] || (Unobstructed(t, rows[..|rows| - 1])
                   && !Obstructed(ApplyAll(t, PutsForAll(t, rows[..|rows| - 1])), rows[|rows| - 1]))
  }

  // ----- one row -----

  /** A row's puts succeed exactly when its keys are free and nothing obstructs them, and add that row. */
  ghost predicate RowRefines(t: Tables, row: Row) {
    var after := Stepwise(t, PutsFor(t, row));
    && (after.Some? <==> !IdTaken(RowsOf(t), row) && !UniqueTaken(RowsOf(t), row) && !Obstructed(t, row))
    && (after.Some? ==> after.value == ApplyAll(t, PutsFor(t, row)))
    && (after.Some? ==> Keyed(after.value) && RowsOf(after.value) == Plus(RowsOf(t), row))
  }

  lemma OneStep(t: Tables, v: Write)
    ensures Stepwise(t, [v]) == (if Holds(t, v) then Some(Apply(t, v)) else None)
    ensures ApplyAll(t, [v]) == Apply(t, v)
  {
    assert [v][..0] == [];
  }

  lemma TwoSteps(t: Tables, v: Write, w: Write)
    ensures Stepwise(t, [v, w]) == (if Holds(t, v) && Holds(Apply(t, v), w) then Some(Apply(Apply(t, v), w)) else None)
    ensures ApplyAll(t, [v, w]) == Apply(Apply(t, v), w)
  {
    OneStep(t, v);
    assert [v, w][..1] == [v];
  }

  lemma UserRowRefines(t: Tables, u: User)
    requires Keyed(t)
    ensures RowRefines(t, UserRow(u))
  {
    hide SortKey, IdentitiesOk, OrganizationsOk, MembershipsOk, ApiKeysOk;
    OneStep(t, PutUser(ToUserItem(u)));
    ParentsAgree(t, u.id);
    if u.id !in t.users {
      var users := t.users[u.id := ToUserItem(u)];
      assert UserRows(users) == UserRows(t.users) + {u} by {
        assert FromUserItem(users[u.id]) == u;
        assert forall k | k in t.users :: users[k] == t.users[k];
      }
    }
  }

  lemma AuditRowRefines(t: Tables, e: AuditEvent)
    requires Keyed(t)
    ensures RowRefines(t, AuditRow(e))
  {
    hide SortKey, UsersOk, IdentitiesOk, OrganizationsOk, MembershipsOk, ApiKeysOk;
    OneStep(t, PutAudit(e));
    if e.id in t.audits {
      assert t.audits[e.id] in RowsOf(t).audits;
    } else {
      NewValue(t.audits, e.id, e);
    }
  }

  lemma OrganizationRowRefines(t: Tables, o: Organization)
    requires Keyed(t)
    ensures RowRefines(t, OrganizationRow(o))
  {
    hide SortKey, UsersOk, IdentitiesOk, OrganizationsOk, MembershipsOk, ApiKeysOk, AuditsOk, SessionsOk;
    var key, item := SlugKey(o.slug), ConstraintItem(o.id, None);
    TwoSteps(t, PutOrganization(o), PutConstraint(key, item));
    ParentsAgree(t, o.id);
    SlugsAgree(t, o.slug);
    if o.id !in t.organizations && key !in t.constraints {
      NewValue(t.organizations, o.id, o);
      AddOrganization(t, o);
      IdentitiesIgnore(t.identities, t.constraints, key, item);
      ApiKeysIgnore(t.apiKeys, t.constraints, key, item);
      MembershipsIgnore(t.memberships, t.constraints, key, item);
    }
  }

  lemma SlugsAgree(t: Tables, slug: string)
    requires Keyed(t)
    ensures SlugKey(slug) in t.constraints <==> exists x :: x in RowsOf(t).organizations && x.slug == slug
  {
    if SlugKey(slug) in t.constraints {
      assert t.organizations[t.constraints[SlugKey(slug)].entityId] in RowsOf(t).organizations;
    }
  }

  lemma IdentityRowRefines(t: Tables, i: ExternalIdentity)
    requires Keyed(t)
    ensures RowRefines(t, IdentityRow(i))
  {
    hide SortKey, IdentityText, UsersOk, IdentitiesOk, OrganizationsOk, MembershipsOk, ApiKeysOk, AuditsOk, SessionsOk;
    var key, item := IdentityKeyOf(i), ConstraintItem(i.id, Some(i.userId));
    TwoSteps(t, PutIdentity(i), PutConstraint(key, item));
    IdentityKeysAgree(t, i);
    if i.id !in t.identities && key !in t.constraints {
      NewValue(t.identities, i.id, i);
      AddIdentity(t, i);
      OrganizationsIgnore(t.organizations, t.constraints, key, item);
      ApiKeysIgnore(t.apiKeys, t.constraints, key, item);
      MembershipsIgnore(t.memberships, t.constraints, key, item);
    }
  }

  lemma IdentityKeysAgree(t: Tables, i: ExternalIdentity)
    requires Keyed(t)
    ensures i.id in t.identities <==> IdTaken(RowsOf(t), IdentityRow(i))
    ensures UniqueTaken(RowsOf(t), IdentityRow(i)) ==> IdentityKeyOf(i) in t.constraints
  {
    if i.id in t.identities {
      assert t.identities[i.id] in RowsOf(t).identities;
    }
    forall x | x in RowsOf(t).identities && IdentityTuple(x) == IdentityTuple(i)
      ensures IdentityKeyOf(i) in t.constraints
    {
      assert t.identities[x.id] == x && IdentityKeyOf(x) == IdentityKeyOf(i);
    }
  }

  lemma MembershipRowRefines(t: Tables, m: Membership)
    requires Keyed(t)
    ensures RowRefines(t, MembershipRow(m))
  {
    hide SortKey, UsersOk, IdentitiesOk, OrganizationsOk, MembershipsOk, ApiKeysOk, AuditsOk, SessionsOk;
    var createdAt := CreationTime(t, m.organizationId, m.createdAt);
    var key, guard := MembershipIdKey(m.id), ConstraintItem(m.id, None);
    TwoSteps(t, PutMembership(ToMembershipItem(m, createdAt)), PutConstraint(key, guard));
    MembershipKeysAgree(t, m);
    if PairOf(m) !in t.memberships && key !in t.constraints {
      NewMembershipRow(t, m, createdAt);
      AddMembership(t, m, createdAt);
      OrganizationsIgnore(t.organizations, t.constraints, key, guard);
      IdentitiesIgnore(t.identities, t.constraints, key, guard);
      ApiKeysIgnore(t.apiKeys, t.constraints, key, guard);
    }
  }

  lemma MembershipKeysAgree(t: Tables, m: Membership)
    requires Keyed(t)
    ensures PairOf(m) in t.memberships <==> UniqueTaken(RowsOf(t), MembershipRow(m))
    ensures IdTaken(RowsOf(t), MembershipRow(m)) ==> MembershipIdKey(m.id) in t.constraints
  {
    hide SortKey;
    if PairOf(m) in t.memberships {
      assert t.memberships[PairOf(m)].membership in RowsOf(t).memberships;
    }
  }

  lemma NewMembershipRow(t: Tables, m: Membership, createdAt: UtcTime)
    requires PairOf(m) !in t.memberships
    ensures MembershipRows(t.memberships[PairOf(m) := ToMembershipItem(m, createdAt)]) == MembershipRows(t.memberships) + {m}
  {
    hide SortKey;
    var memberships := t.memberships[PairOf(m) := ToMembershipItem(m, createdAt)];
    assert memberships[PairOf(m)].membership == m;
    assert forall k | k in t.memberships :: memberships[k] == t.memberships[k];
  }

  lemma ApiKeyRowRefines(t: Tables, k: ApiKey)
    requires Keyed(t)
    ensures RowRefines(t, ApiKeyRow(k))
  {
    hide SortKey, UsersOk, IdentitiesOk, OrganizationsOk, MembershipsOk, ApiKeysOk, AuditsOk, SessionsOk;
    var key, item := SegmentKey(k.keyId), ConstraintItem(k.id, None);
    TwoSteps(t, PutApiKey(ToApiKeyItem(k)), PutConstraint(key, item));
    ApiKeysAgree(t, k);
    if k.id !in t.apiKeys && key !in t.constraints {
      NewApiKeyRow(t, k);
      AddApiKey(t, k);
      OrganizationsIgnore(t.organizations, t.constraints, key, item);
      IdentitiesIgnore(t.identities, t.constraints, key, item);
      MembershipsIgnore(t.memberships, t.constraints, key, item);
    }
  }

  lemma ApiKeysAgree(t: Tables, k: ApiKey)
    requires Keyed(t)
    ensures k.id in t.apiKeys <==> IdTaken(RowsOf(t), ApiKeyRow(k))
    ensures SegmentKey(k.keyId) in t.constraints <==> UniqueTaken(RowsOf(t), ApiKeyRow(k))
  {
    hide SortKey;
    if k.id in t.apiKeys {
      assert t.apiKeys[k.id].apiKey in RowsOf(t).apiKeys;
    }
    if SegmentKey(k.keyId) in t.constraints {
      assert t.apiKeys[t.constraints[SegmentKey(k.keyId)].entityId].apiKey in RowsOf(t).apiKeys;
    }
  }

  lemma NewApiKeyRow(t: Tables, k: ApiKey)
    requires k.id !in t.apiKeys
    ensures ApiKeyRows(t.apiKeys[k.id := ToApiKeyItem(k)]) == ApiKeyRows(t.apiKeys) + {k}
  {
    hide SortKey;
    var apiKeys := t.apiKeys[k.id := ToApiKeyItem(k)];
    assert apiKeys[k.id].apiKey == k;
    assert forall j | j in t.apiKeys :: apiKeys[j] == t.apiKeys[j];
  }
}
