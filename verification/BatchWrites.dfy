/**
 The compound writes as lists of items: entities first, then their events, then one check
 for every parent the batch refers to but does not create.
 */
module BatchWrites {
  import opened Outcomes
  import opened Timestamps
  import opened Domain
  import opened Keys
  import opened Relational
  import opened Items
  import opened Transactions
  import opened Batches
  import opened Refinement
  import opened Faults

  // ----- batches as rows -----

  function AuditRows(audits: seq<AuditEvent>): seq<Row> {
    seq(|audits|, i requires 0 <= i < |audits| => AuditRow(audits[i]))
  }

  function UserBatchRows(b: UserBatch): seq<Row> {
    [UserRow(b.user), IdentityRow(b.identity), OrganizationRow(b.organization), MembershipRow(b.membership)]
    + AuditRows(b.audits)
  }

  function OrganizationBatchRows(b: OrganizationBatch): seq<Row> {
    [OrganizationRow(b.organization), MembershipRow(b.membership)] + AuditRows(b.audits)
  }

  // ----- parents from outside -----

  /** An insertion-ordered collection without duplicates. */
  function WithParent(parents: seq<Parent>, p: Parent): seq<Parent> {
    if p in parents then parents else parents + [p]
  }

  predicate NoDuplicates(parents: seq<Parent>) {
    forall i, j | 0 <= i < j < |parents| :: parents[i] != parents[j]
  }

  lemma WithParentAdds(parents: seq<Parent>, p: Parent)
    requires NoDuplicates(parents)
    ensures NoDuplicates(WithParent(parents, p))
    ensures forall q :: q in WithParent(parents, p) <==> q in parents || q == p
  {
  }

  /** What one audit event needs from outside. */
  predicate EventNeeds(audits: seq<AuditEvent>, n: nat, organization: string, p: Parent)
    requires n <= |audits|
  {
    p.OrganizationParent? && p.id != organization && exists i :: 0 <= i < n && audits[i].organizationId == p.id
  }

  /** What a first login's batch needs from outside. */
  predicate UserBatchNeeds(b: UserBatch, n: nat, p: Parent)
    requires n <= |b.audits|
  {
    || (p == UserParent(b.identity.userId) && b.identity.userId != b.user.id)
    || (p == OrganizationParent(b.membership.organizationId) && b.membership.organizationId != b.organization.id)
    || (p == UserParent(b.membership.userId) && b.membership.userId != b.user.id)
    || EventNeeds(b.audits, n, b.organization.id, p)
  }

  predicate OrganizationBatchNeeds(b: OrganizationBatch, n: nat, p: Parent)
    requires n <= |b.audits|
  {
    || p == UserParent(b.membership.userId)
    || (p == OrganizationParent(b.membership.organizationId) && b.membership.organizationId != b.organization.id)
    || EventNeeds(b.audits, n, b.organization.id, p)
  }

  lemma UserBatchCreates(b: UserBatch, i: nat, p: Parent)
    requires i <= |UserBatchRows(b)|
    ensures p.UserParent? ==> (Creates(UserBatchRows(b)[..i], p) <==> i > 0 && p.id == b.user.id)
    ensures p.OrganizationParent? ==> (Creates(UserBatchRows(b)[..i], p) <==> i > 2 && p.id == b.organization.id)
  {
    var rows := UserBatchRows(b);
    var before := rows[..i];
    assert forall j | 0 <= j < i :: before[j] == rows[j];
    assert forall j | 0 <= j < |rows| :: (rows[j].UserRow? <==> j == 0) && (rows[j].OrganizationRow? <==> j == 2);
    if i > 0 { assert before[0] == rows[0]; }
    if i > 2 { assert before[2] == rows[2]; }
  }

  lemma UserBatchExternals(b: UserBatch, p: Parent)
    ensures UserBatchNeeds(b, |b.audits|, p) <==> IsExternal(UserBatchRows(b), p)
  {
    var rows := UserBatchRows(b);
    if IsExternal(rows, p) {
      var i :| 0 <= i < |rows| && p in Parents(rows[i]) && !Creates(rows[..i], p);
      UserBatchCreates(b, i, p);
      assert i >= 4 ==> rows[i] == AuditRow(b.audits[i - 4]);
    }
    if UserBatchNeeds(b, |b.audits|, p) {
      UserBatchCreates(b, 1, p);
      UserBatchCreates(b, 3, p);
      assert rows[1] == IdentityRow(b.identity) && rows[3] == MembershipRow(b.membership);
      if i :| 0 <= i < |b.audits| && p == OrganizationParent(b.audits[i].organizationId) && p.id != b.organization.id {
        UserBatchCreates(b, 4 + i, p);
        assert rows[4 + i] == AuditRow(b.audits[i]);
        assert p in Parents(rows[4 + i]);
      }
    }
  }

  /** The collected parents are exactly the batch's external ones. */
  lemma UserBatchCovers(b: UserBatch, parents: seq<Parent>)
    requires NoDuplicates(parents) && forall p :: p in parents <==> UserBatchNeeds(b, |b.audits|, p)
    ensures Covers(parents, UserBatchRows(b))
  {
    hide UserBatchNeeds, IsExternal;
    forall p ensures UserBatchNeeds(b, |b.audits|, p) <==> IsExternal(UserBatchRows(b), p) {
      UserBatchExternals(b, p);
    }
  }

  lemma OrganizationBatchCreates(b: OrganizationBatch, i: nat, p: Parent)
    requires i <= |OrganizationBatchRows(b)|
    ensures Creates(OrganizationBatchRows(b)[..i], p) <==> i > 0 && p == OrganizationParent(b.organization.id)
  {
    var rows := OrganizationBatchRows(b);
    var before := rows[..i];
    assert forall j | 0 <= j < i :: before[j] == rows[j];
    assert forall j | 0 <= j < |rows| :: !rows[j].UserRow? && (rows[j].OrganizationRow? <==> j == 0);
    if i > 0 { assert before[0] == rows[0]; }
  }

  lemma OrganizationBatchExternals(b: OrganizationBatch, p: Parent)
    ensures OrganizationBatchNeeds(b, |b.audits|, p) <==> IsExternal(OrganizationBatchRows(b), p)
  {
    var rows := OrganizationBatchRows(b);
    if IsExternal(rows, p) {
      var i :| 0 <= i < |rows| && p in Parents(rows[i]) && !Creates(rows[..i], p);
      OrganizationBatchCreates(b, i, p);
      assert i >= 2 ==> rows[i] == AuditRow(b.audits[i - 2]);
    }
    if OrganizationBatchNeeds(b, |b.audits|, p) {
      OrganizationBatchCreates(b, 1, p);
      assert rows[1] == MembershipRow(b.membership);
      if i :| 0 <= i < |b.audits| && p == OrganizationParent(b.audits[i].organizationId) && p.id != b.organization.id {
        OrganizationBatchCreates(b, 2 + i, p);
        assert rows[2 + i] == AuditRow(b.audits[i]);
        assert p in Parents(rows[2 + i]);
      }
    }
  }

  lemma OrganizationBatchCovers(b: OrganizationBatch, parents: seq<Parent>)
    requires NoDuplicates(parents) && forall p :: p in parents <==> OrganizationBatchNeeds(b, |b.audits|, p)
    ensures Covers(parents, OrganizationBatchRows(b))
  {
    hide OrganizationBatchNeeds, IsExternal;
    forall p ensures OrganizationBatchNeeds(b, |b.audits|, p) <==> IsExternal(OrganizationBatchRows(b), p) {
      OrganizationBatchExternals(b, p);
    }
  }

  lemma PutsGrow(t: Tables, rows: seq<Row>, row: Row)
    ensures PutsForAll(t, rows + [row]) == PutsForAll(t, rows) + PutsFor(ApplyAll(t, PutsForAll(t, rows)), row)
  {
    assert (rows + [row])[..|rows + [row]| - 1] == rows;
  }

  lemma NoPuts(t: Tables)
    ensures PutsForAll(t, []) == []
  {
  }

  lemma OrganizationPutIsThere(t: Tables, before: seq<Write>, o: Organization)
    ensures var t' := ApplyAll(t, before + [PutOrganization(o), PutConstraint(SlugKey(o.slug), ConstraintItem(o.id, None))]);
            o.id in t'.organizations && t'.organizations[o.id] == o
  {
    var v, w := PutOrganization(o), PutConstraint(SlugKey(o.slug), ConstraintItem(o.id, None));
    ApplyAllAppends(t, before, [v, w]);
    TwoSteps(ApplyAll(t, before), v, w);
  }

  /** The puts ahead of the membership's. */
  lemma PutsBeforeMembership(t: Tables, u: User, i: ExternalIdentity, o: Organization)
    ensures PutsForAll(t, [UserRow(u), IdentityRow(i), OrganizationRow(o)])
         == [PutUser(ToUserItem(u)),
             PutIdentity(i), PutConstraint(IdentityKeyOf(i), ConstraintItem(i.id, Some(i.userId))),
             PutOrganization(o), PutConstraint(SlugKey(o.slug), ConstraintItem(o.id, None))]
  {
    hide SortKey, IdentityText, Apply, ApplyAll;
    var r1, r2, r3 := UserRow(u), IdentityRow(i), OrganizationRow(o);
    assert [r1] == [] + [r1] && [r1, r2] == [r1] + [r2] && [r1, r2, r3] == [r1, r2] + [r3];
    PutsGrow(t, [], r1);
    PutsGrow(t, [r1], r2);
    PutsGrow(t, [r1, r2], r3);
  }

  // ----- the creation time copied onto the membership -----

  /** The creation time read beforehand is the one a membership of this organization gets. */
  predicate RightTime(t: Tables, o: Organization, m: Membership, createdAt: UtcTime) {
    if m.organizationId == o.id then createdAt == o.createdAt
    else m.organizationId in t.organizations && createdAt == t.organizations[m.organizationId].createdAt
  }

  lemma PutAfterOrganization(t: Tables, before: seq<Write>, o: Organization, m: Membership, createdAt: UtcTime)
    requires RightTime(t, o, m, createdAt)
    requires forall i | 0 <= i < |before| :: TargetOf(before[i]) != OrganizationAt(m.organizationId)
    ensures var puts := before + [PutOrganization(o), PutConstraint(SlugKey(o.slug), ConstraintItem(o.id, None))];
            PutsFor(ApplyAll(t, puts), MembershipRow(m)) ==
            [PutMembership(ToMembershipItem(m, createdAt)), PutConstraint(MembershipIdKey(m.id), ConstraintItem(m.id, None))]
  {
    hide ApplyAll, SortKey;
    var puts := before + [PutOrganization(o), PutConstraint(SlugKey(o.slug), ConstraintItem(o.id, None))];
    if m.organizationId == o.id {
      OrganizationPutIsThere(t, before, o);
    } else {
      UntouchedItems(t, puts, OrganizationAt(m.organizationId));
      assert Lookup(t, OrganizationAt(m.organizationId)).Some?;
      assert Lookup(ApplyAll(t, puts), OrganizationAt(m.organizationId)) == Lookup(t, OrganizationAt(m.organizationId));
    }
  }

  /** The seven items of a first login's entities, written as one list. */
  function UserEntityWrites(b: UserBatch, createdAt: UtcTime): seq<Write> {
    [PutUser(ToUserItem(b.user)),
     PutIdentity(b.identity),
     PutConstraint(IdentityKeyOf(b.identity), ConstraintItem(b.identity.id, Some(b.identity.userId))),
     PutOrganization(b.organization),
     PutConstraint(SlugKey(b.organization.slug), ConstraintItem(b.organization.id, None)),
     PutMembership(ToMembershipItem(b.membership, createdAt)),
     PutConstraint(MembershipIdKey(b.membership.id), ConstraintItem(b.membership.id, None))]
  }

  function OrganizationEntityWrites(b: OrganizationBatch, createdAt: UtcTime): seq<Write> {
    [PutOrganization(b.organization),
     PutConstraint(SlugKey(b.organization.slug), ConstraintItem(b.organization.id, None)),
     PutMembership(ToMembershipItem(b.membership, createdAt)),
     PutConstraint(MembershipIdKey(b.membership.id), ConstraintItem(b.membership.id, None))]
  }

  lemma UserEntitiesArePuts(t: Tables, b: UserBatch, createdAt: UtcTime)
    requires RightTime(t, b.organization, b.membership, createdAt)
    ensures PutsForAll(t, UserBatchRows(b)[..4]) == UserEntityWrites(b, createdAt)
  {
    hide SortKey, IdentityText, Apply, ApplyAll, PutsForAll, RightTime;
    var o := b.organization;
    var r3 := [UserRow(b.user), IdentityRow(b.identity), OrganizationRow(o)];
    var puts := PutsForAll(t, r3);
    PutsBeforeMembership(t, b.user, b.identity, o);
    assert puts == puts[..3] + [PutOrganization(o), PutConstraint(SlugKey(o.slug), ConstraintItem(o.id, None))];
    PutAfterOrganization(t, puts[..3], o, b.membership, createdAt);
    assert UserBatchRows(b)[..4] == r3 + [MembershipRow(b.membership)];
    PutsGrow(t, r3, MembershipRow(b.membership));
  }

  lemma OrganizationEntitiesArePuts(t: Tables, b: OrganizationBatch, createdAt: UtcTime)
    requires RightTime(t, b.organization, b.membership, createdAt)
    ensures PutsForAll(t, OrganizationBatchRows(b)[..2]) == OrganizationEntityWrites(b, createdAt)
  {
    hide SortKey, IdentityText, Apply, ApplyAll, PutsForAll, RightTime;
    var o, r1 := b.organization, OrganizationRow(b.organization);
    PutsGrow(t, [], r1);
    NoPuts(t);
    assert [r1] == [] + [r1];
    PutAfterOrganization(t, [], o, b.membership, createdAt);
    assert OrganizationBatchRows(b)[..2] == [r1] + [MembershipRow(b.membership)];
    PutsGrow(t, [r1], MembershipRow(b.membership));
  }

  function AuditPutsOf(audits: seq<AuditEvent>): seq<Write> {
    seq(|audits|, i requires 0 <= i < |audits| => PutAudit(audits[i]))
  }

  lemma {:induction false} AuditsArePuts(t: Tables, rows: seq<Row>, audits: seq<AuditEvent>)
    ensures PutsForAll(t, rows + AuditRows(audits)) == PutsForAll(t, rows) + AuditPutsOf(audits)
  {
    hide PutsForAll;
    if audits == [] {
      assert rows + AuditRows(audits) == rows;
    } else {
      var front := audits[..|audits| - 1];
      AuditsArePuts(t, rows, front);
      assert rows + AuditRows(audits) == (rows + AuditRows(front)) + [AuditRow(audits[|audits| - 1])];
      PutsGrow(t, rows + AuditRows(front), AuditRow(audits[|audits| - 1]));
      assert AuditPutsOf(audits) == AuditPutsOf(front) + [PutAudit(audits[|audits| - 1])];
    }
  }

  // ----- the descriptors aligned with them -----

  /** Entity conflicts of a first login, the identity tuple being the one race. */
  function UserEntityConflicts(): seq<Conflict> {
    [DuplicateConflict(EntityId), DuplicateConflict(EntityId), IdentityRaceConflict,
     DuplicateConflict(EntityId), DuplicateConflict(OrganizationSlug),
     DuplicateConflict(MembershipPair), DuplicateConflict(EntityId)]
  }

  function OrganizationEntityConflicts(): seq<Conflict> {
    [DuplicateConflict(EntityId), DuplicateConflict(OrganizationSlug), DuplicateConflict(MembershipPair),
     DuplicateConflict(EntityId)]
  }

  function AuditConflictsOf(n: nat): seq<Conflict> {
    seq(n, i => DuplicateConflict(EntityId))
  }

  lemma ConflictsGrow(rows: seq<Row>, row: Row, racing: bool)
    ensures ConflictsForAll(rows + [row], racing) == ConflictsForAll(rows, racing) + ConflictsFor(row, racing)
  {
    assert (rows + [row])[..|rows + [row]| - 1] == rows;
  }

  lemma {:induction false} AuditConflictsAlign(rows: seq<Row>, audits: seq<AuditEvent>, racing: bool)
    ensures ConflictsForAll(rows + AuditRows(audits), racing)
         == ConflictsForAll(rows, racing) + AuditConflictsOf(|audits|)
  {
    hide ConflictsForAll;
    if audits == [] {
      assert rows + AuditRows(audits) == rows;
    } else {
      var front := audits[..|audits| - 1];
      AuditConflictsAlign(rows, front, racing);
      assert rows + AuditRows(audits) == (rows + AuditRows(front)) + [AuditRow(audits[|audits| - 1])];
      ConflictsGrow(rows + AuditRows(front), AuditRow(audits[|audits| - 1]), racing);
    }
  }

  lemma EntityConflicts(u: Row, i: Row, o: Row, m: Row)
    requires u.UserRow? && i.IdentityRow? && o.OrganizationRow? && m.MembershipRow?
    ensures ConflictsForAll([u, i, o, m], true) == UserEntityConflicts()
  {
    hide ConflictsForAll;
    assert ConflictsForAll([], true) == [] by { NoConflicts(true); }
    assert [u] == [] + [u] && [u, i] == [u] + [i] && [u, i, o] == [u, i] + [o] && [u, i, o, m] == [u, i, o] + [m];
    ConflictsGrow([], u, true);
    ConflictsGrow([u], i, true);
    ConflictsGrow([u, i], o, true);
    ConflictsGrow([u, i, o], m, true);
  }

  lemma NoConflicts(racing: bool)
    ensures ConflictsForAll([], racing) == []
  {
  }

  /** The hand-aligned descriptors are the batch's. */
  lemma UserConflictsAlign(b: UserBatch, parents: seq<Parent>)
    ensures AllConflicts(UserBatchRows(b), parents, true)
         == UserEntityConflicts() + AuditConflictsOf(|b.audits|) + seq(|parents|, i => ReferenceConflict)
  {
    hide ConflictsForAll;
    var u, i, o, m := UserRow(b.user), IdentityRow(b.identity), OrganizationRow(b.organization), MembershipRow(b.membership);
    EntityConflicts(u, i, o, m);
    AuditConflictsAlign([u, i, o, m], b.audits, true);
  }

  lemma OrganizationConflictsAlign(b: OrganizationBatch, parents: seq<Parent>)
    ensures AllConflicts(OrganizationBatchRows(b), parents, false)
         == OrganizationEntityConflicts() + AuditConflictsOf(|b.audits|) + seq(|parents|, i => ReferenceConflict)
  {
    var r1, r2 := OrganizationRow(b.organization), MembershipRow(b.membership);
    assert [r1] == [] + [r1] && [r1, r2] == [r1] + [r2];
    ConflictsGrow([], r1, false);
    ConflictsGrow([r1], r2, false);
    AuditConflictsAlign([r1, r2], b.audits, false);
  }

  // ----- the whole transactions -----

  lemma UserWritesAreTheBatch(t: Tables, b: UserBatch, createdAt: UtcTime, parents: seq<Parent>)
    requires RightTime(t, b.organization, b.membership, createdAt)
    ensures WritesFor(t, UserBatchRows(b), parents)
         == UserEntityWrites(b, createdAt) + AuditPutsOf(b.audits) + ChecksFor(parents)
  {
    hide SortKey, IdentityText, PutsForAll, RightTime;
    assert UserBatchRows(b) == UserBatchRows(b)[..4] + AuditRows(b.audits);
    UserEntitiesArePuts(t, b, createdAt);
    AuditsArePuts(t, UserBatchRows(b)[..4], b.audits);
  }

  lemma OrganizationWritesAreTheBatch(t: Tables, b: OrganizationBatch, createdAt: UtcTime, parents: seq<Parent>)
    requires RightTime(t, b.organization, b.membership, createdAt)
    ensures WritesFor(t, OrganizationBatchRows(b), parents)
         == OrganizationEntityWrites(b, createdAt) + AuditPutsOf(b.audits) + ChecksFor(parents)
  {
    hide SortKey, IdentityText, PutsForAll, RightTime;
    assert OrganizationBatchRows(b) == OrganizationBatchRows(b)[..2] + AuditRows(b.audits);
    OrganizationEntitiesArePuts(t, b, createdAt);
    AuditsArePuts(t, OrganizationBatchRows(b)[..2], b.audits);
  }

  // ----- items addressed twice -----

  predicate DistinctEvents(audits: seq<AuditEvent>) {
    forall i, j | 0 <= i < j < |audits| :: audits[i].id != audits[j].id
  }

  lemma DistinctWhenApart(vs: seq<Write>, ws: seq<Write>)
    requires forall i, j | 0 <= i < |vs| && 0 <= j < |ws| :: TargetOf(vs[i]) != TargetOf(ws[j])
    ensures DistinctTargets(vs + ws) <==> DistinctTargets(vs) && DistinctTargets(ws)
  {
    hide TargetOf;
    var all := vs + ws;
    if DistinctTargets(all) {
      assert forall i | 0 <= i < |vs| :: all[i] == vs[i];
      assert forall j | 0 <= j < |ws| :: all[|vs| + j] == ws[j];
    }
  }

  /** A check addresses a parent, and no parent twice. */
  lemma CheckTargets(parents: seq<Parent>)
    requires NoDuplicates(parents)
    ensures DistinctTargets(ChecksFor(parents))
    ensures forall i | 0 <= i < |ChecksFor(parents)| ::
              exists p :: p in parents && TargetOf(ChecksFor(parents)[i]) == TargetOf(CheckFor(p))
  {
    hide TargetOf, CheckFor;
    ChecksAreListed(parents);
    forall i, j | 0 <= i < j < |parents| ensures TargetOf(ChecksFor(parents)[i]) != TargetOf(ChecksFor(parents)[j]) {
      ChecksDiffer(parents[i], parents[j]);
    }
    forall i | 0 <= i < |parents|
      ensures exists p :: p in parents && TargetOf(ChecksFor(parents)[i]) == TargetOf(CheckFor(p))
    {
      assert parents[i] in parents;
    }
  }

  lemma AuditTargets(audits: seq<AuditEvent>)
    ensures DistinctTargets(AuditPutsOf(audits)) <==> DistinctEvents(audits)
  {
    var ws := AuditPutsOf(audits);
    if DistinctTargets(ws) {
      forall i, j | 0 <= i < j < |audits| ensures audits[i].id != audits[j].id {
        assert TargetOf(ws[i]) != TargetOf(ws[j]);
      }
    }
  }

  /** Entities, events and checks address different items, so only the events may repeat one. */
  lemma OnlyEventsRepeat(entities: seq<Write>, audits: seq<AuditEvent>, parents: seq<Parent>)
    requires DistinctTargets(entities) && NoDuplicates(parents)
    requires forall i | 0 <= i < |entities| :: !TargetOf(entities[i]).AuditAt?
    requires forall i, p | 0 <= i < |entities| && p in parents :: TargetOf(entities[i]) != TargetOf(CheckFor(p))
    ensures DistinctTargets(entities + AuditPutsOf(audits) + ChecksFor(parents)) <==> DistinctEvents(audits)
  {
    hide DistinctTargets, ChecksFor, DistinctEvents;
    CheckTargets(parents);
    AuditTargets(audits);
    DistinctWhenApart(entities, AuditPutsOf(audits));
    DistinctWhenApart(entities + AuditPutsOf(audits), ChecksFor(parents));
  }

  /** A first login's transaction addresses an item twice exactly when two of its events share an id. */
  lemma UserBatchTargets(b: UserBatch, createdAt: UtcTime, parents: seq<Parent>)
    requires Covers(parents, UserBatchRows(b))
    ensures DistinctTargets(UserEntityWrites(b, createdAt) + AuditPutsOf(b.audits) + ChecksFor(parents))
       <==> DistinctEvents(b.audits)
  {
    hide SortKey, IdentityText, IsExternal, UserBatchRows, DistinctEvents, AuditPutsOf, ChecksFor;
    var entities := UserEntityWrites(b, createdAt);
    forall i, p | 0 <= i < |entities| && p in parents ensures TargetOf(entities[i]) != TargetOf(CheckFor(p)) {
      UserBatchExternals(b, p);
    }
    OnlyEventsRepeat(entities, b.audits, parents);
  }

  lemma OrganizationBatchTargets(b: OrganizationBatch, createdAt: UtcTime, parents: seq<Parent>)
    requires Covers(parents, OrganizationBatchRows(b))
    ensures DistinctTargets(OrganizationEntityWrites(b, createdAt) + AuditPutsOf(b.audits) + ChecksFor(parents))
       <==> DistinctEvents(b.audits)
  {
    hide SortKey, IsExternal, OrganizationBatchRows, DistinctEvents, AuditPutsOf, ChecksFor;
    var entities := OrganizationEntityWrites(b, createdAt);
    forall i, p | 0 <= i < |entities| && p in parents ensures TargetOf(entities[i]) != TargetOf(CheckFor(p)) {
      OrganizationBatchExternals(b, p);
    }
    OnlyEventsRepeat(entities, b.audits, parents);
  }
}
