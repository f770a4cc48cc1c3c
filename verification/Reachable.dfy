/**
 Every state the key-value store reaches, whatever creates, provisions, renames, removals,
 revocations, suspensions and role changes interleave: its constraint items stay the exact
 inverse of its tables, so lookups through them equal linear scans.
 */
module Reachable {
  import opened Outcomes
  import opened Timestamps
  import opened Domain
  import opened Keys
  import opened Relational
  import opened Items
  import opened Transactions
  import opened Batches
  import opened Refinement
  import opened RoleTransitions
  import opened Ownership
  import opened Credentials
  import opened KeyLifecycle
  import opened Renames

  datatype Task =
    | Insert(rows: seq<Row>, parents: seq<Parent>)
    | Grant(membership: Membership)
    | Update(organization: Organization)
    | Remove(pair: (string, string))
    | EndKey(keyId: string, keyAt: UtcTime)
    | SweepKey(sweptId: string, sweptAt: UtcTime)
    | SetStatus(organizationId: string, enable: bool, at: UtcTime)
    | ChangeRole(call: Call, witnessId: Option<string>)
    | EditUser(userId: string, displayName: string, editedAt: UtcTime)

  datatype Stage = Ready | Granting(organizationCreatedAt: UtcTime) | Updating(plan: Plan) | Finished

  datatype Worker = Worker(task: Task, stage: Stage)

  datatype State = State(tables: Tables, workers: map<nat, Worker>)

  datatype Move = Start(worker: nat, task: Task) | Act(worker: nat, weather: Weather) | SaveSession(session: Session)

  // ----- one storage interaction -----

  function Submitting(t: Tables, ws: seq<Write>, weather: Weather): Tables {
    ItemsAfter(Attempt(t, weather), ws)
  }

  /** update_user: SET display_name, updated_at. */
  function WithName(t: Tables, id: string, name: string, at: UtcTime): Tables
    requires id in t.users
  {
    t.(users := t.users[id := t.users[id].(displayName := name, updatedAt := at)])
  }

  /** The items one interaction leaves; contention only repeats it. */
  function Effects(t: Tables, x: Worker, weather: Weather): Tables {
    match x.task
    case Insert(rows, parents) => if x.stage.Ready? then Submitting(t, WritesFor(t, rows, parents), weather) else t
    case Grant(m) =>
      if x.stage.Granting? then Submitting(t, MemberWrites(m, x.stage.organizationCreatedAt), weather) else t
    case Update(o) =>
      if !x.stage.Updating? then t
      else if x.stage.plan.KeepSlug? then (if weather.Clear? && o.id in t.organizations then KeptSlug(t, o) else t)
      else if x.stage.plan.ChangeSlug? then Submitting(t, RenameWrites(o, x.stage.plan.oldSlug), weather)
      else t
    case Remove(pair) => if x.stage.Ready? && weather.Clear? && pair in t.memberships then Delete(t, pair) else t
    case EndKey(id, at) =>
      if x.stage.Ready? && weather.Clear? && IsActiveKey(t, id) && t.apiKeys[id].apiKey.id == id
      then Revoke(t, id, at) else t
    case SweepKey(id, at) =>
      if x.stage.Ready? && weather.Clear? && IsActiveKey(t, id) && t.apiKeys[id].apiKey.id == id
      then Sweep(t, id, at) else t
    case SetStatus(id, enable, at) =>
      if x.stage.Ready? && weather.Clear? && id in t.organizations
      then
        var o := t.organizations[id];
        WithOrganization(t, id, if enable then Enabled(o, at) else KeyLifecycle.Disabled(o, at))
      else t
    case ChangeRole(c, pinned) => if x.stage.Ready? then Submitting(t, RoleWrites(c, pinned), weather) else t
    case EditUser(id, name, at) =>
      if x.stage.Ready? && weather.Clear? && id in t.users then WithName(t, id, name, at) else t
  }

  /** Grants and updates read first; any other call is one write. */
  function StageAfter(t: Tables, x: Worker, weather: Weather): Stage {
    if x.stage.Ready? && x.task.Grant? then
      var org := x.task.membership.organizationId;
      if org in t.organizations then Stage.Granting(t.organizations[org].createdAt) else Stage.Finished
    else if x.stage.Ready? && x.task.Update? then Updating(PlanUpdate(t, x.task.organization))
    else if weather.Contended? || weather.Disturbed? then x.stage
    else Stage.Finished
  }

  ghost predicate Moves(w: State, move: Move, w': State) {
    match move
    case Start(i, task) =>
      && i !in w.workers && (task.Insert? ==> Covers(task.parents, task.rows))
      && w' == w.(workers := w.workers[i := Worker(task, Ready)])
    case Act(i, weather) =>
      && i in w.workers
      && var x := w.workers[i];
         w' == State(Effects(w.tables, x, weather), w.workers[i := x.(stage := StageAfter(w.tables, x, weather))])
    case SaveSession(s) => w' == w.(tables := w.tables.(sessions := w.tables.sessions[s.id := s]))
  }

  // ----- invariant -----

  ghost predicate WorkerOk(t: Tables, x: Worker) {
    && (x.task.Insert? ==> Covers(x.task.parents, x.task.rows))
    && (x.stage.Granting? ==>
          x.task.Grant?
          && x.task.membership.organizationId in t.organizations
          && t.organizations[x.task.membership.organizationId].createdAt == x.stage.organizationCreatedAt)
    && (x.stage.Updating? ==>
          x.task.Update? && (x.stage.plan.ChangeSlug? ==> x.stage.plan.oldSlug != x.task.organization.slug))
  }

  ghost predicate Sound(w: State) {
    Valid(w.tables) && forall i | i in w.workers :: WorkerOk(w.tables, w.workers[i])
  }

  /** Organizations stay, with the creation time they have. */
  ghost predicate TimesStay(t: Tables, t': Tables) {
    forall o | o in t.organizations :: o in t'.organizations && t'.organizations[o].createdAt == t.organizations[o].createdAt
  }

  lemma {:induction false} PlusAllKeepsOrganizations(r: Rows, rows: seq<Row>)
    ensures r.organizations <= PlusAll(r, rows).organizations
  {
    if rows != [] {
      PlusAllKeepsOrganizations(r, rows[..|rows| - 1]);
    }
  }

  lemma InsertStep(t: Tables, rows: seq<Row>, parents: seq<Parent>)
    requires Valid(t) && Covers(parents, rows) && Commits(t, WritesFor(t, rows, parents))
    ensures var t' := ApplyAll(t, WritesFor(t, rows, parents)); Valid(t') && TimesStay(t, t')
  {
    hide SortKey, IdentityText, UsersOk, IdentitiesOk, MembershipsOk, ApiKeysOk, AuditsOk, SessionsOk, ReferencesHold,
         WritesFor, Covers, Commits, ApplyAll;
    BatchAddsItsRows(t, rows, parents);
    var t' := ApplyAll(t, WritesFor(t, rows, parents));
    InsertAllAddsAll(RowsOf(t), rows);
    PlusAllKeepsOrganizations(RowsOf(t), rows);
    forall o | o in t.organizations
      ensures o in t'.organizations && t'.organizations[o] == t.organizations[o]
    {
      assert t.organizations[o] in RowsOf(t).organizations;
      assert t.organizations[o] in t'.organizations.Values;
    }
  }

  /** A grant's transaction is the membership's batch, since creation times do not change. */
  lemma GrantIsInsert(t: Tables, m: Membership)
    requires m.organizationId in t.organizations
    ensures var parents := [OrganizationParent(m.organizationId), UserParent(m.userId)];
            && WritesFor(t, [MembershipRow(m)], parents) == MemberWrites(m, t.organizations[m.organizationId].createdAt)
            && Covers(parents, [MembershipRow(m)])
  {
    hide SortKey, ApplyAll;
    var rows, parents := [MembershipRow(m)], [OrganizationParent(m.organizationId), UserParent(m.userId)];
    assert rows[..0] == [];
    assert PutsForAll(t, []) == [];
    assert ApplyAll(t, []) == t by { NothingApplied(t); }
    assert PutsForAll(t, rows) == PutsFor(t, rows[0]);
    ChecksAreListed(parents);
    assert ChecksFor(parents) == [RequireOrganization(m.organizationId), RequireUser(m.userId)];
    assert Parents(rows[0]) == parents && !Creates(rows[..0], parents[0]) && !Creates(rows[..0], parents[1]);
    forall p ensures p in parents <==> IsExternal(rows, p) {
    }
  }

  lemma NothingApplied(t: Tables)
    ensures ApplyAll(t, []) == t
  {
  }

  lemma GrantStep(t: Tables, m: Membership, createdAt: UtcTime)
    requires Valid(t) && m.organizationId in t.organizations && t.organizations[m.organizationId].createdAt == createdAt
    requires Commits(t, MemberWrites(m, createdAt))
    ensures var t' := ApplyAll(t, MemberWrites(m, createdAt)); Valid(t') && TimesStay(t, t')
  {
    hide Valid, Commits, ApplyAll, WritesFor, Covers, MemberWrites;
    GrantIsInsert(t, m);
    InsertStep(t, [MembershipRow(m)], [OrganizationParent(m.organizationId), UserParent(m.userId)]);
  }

  lemma RenameStep(t: Tables, o: Organization, oldSlug: string)
    requires Valid(t) && oldSlug != o.slug && Commits(t, RenameWrites(o, oldSlug))
    ensures var t' := ApplyAll(t, RenameWrites(o, oldSlug)); Valid(t') && TimesStay(t, t')
  {
    hide Valid, Commits, ApplyAll;
    RenameCommits(t, o, oldSlug);
    RenameEffect(t, o, oldSlug);
    RenameKeepsValid(t, o);
  }

  /** Removing a membership leaves its record-id guard behind. */
  lemma DeleteKeepsValid(t: Tables, pair: (string, string))
    requires Valid(t)
    ensures Valid(Delete(t, pair)) && TimesStay(t, Delete(t, pair))
  {
    hide SortKey, IdentityText, UsersOk, IdentitiesOk, OrganizationsOk, ApiKeysOk, AuditsOk, SessionsOk;
  }

  /** A key keeps everything but its status and revocation time. */
  lemma EndKeyKeepsValid(t: Tables, k: ApiKey)
    requires Valid(t) && k.id in t.apiKeys
    requires k == t.apiKeys[k.id].apiKey.(status := k.status, revokedAt := k.revokedAt)
    ensures Valid(WithKey(t, k)) && TimesStay(t, WithKey(t, k))
  {
    hide SortKey, IdentityText, UsersOk, IdentitiesOk, OrganizationsOk, MembershipsOk, ApiKeysOk, AuditsOk, SessionsOk;
    EndKeyKeepsSegments(t, k);
  }

  lemma EndKeyKeepsSegments(t: Tables, k: ApiKey)
    requires ApiKeysOk(t.apiKeys, t.constraints) && k.id in t.apiKeys
    requires k == t.apiKeys[k.id].apiKey.(status := k.status, revokedAt := k.revokedAt)
    ensures ApiKeysOk(WithKey(t, k).apiKeys, t.constraints)
  {
    hide SortKey;
  }

  lemma EndedKeys(t: Tables, id: string, at: UtcTime)
    requires Valid(t) && id in t.apiKeys && t.apiKeys[id].apiKey.id == id
    ensures Valid(Revoke(t, id, at)) && TimesStay(t, Revoke(t, id, at))
    ensures Valid(Sweep(t, id, at)) && TimesStay(t, Sweep(t, id, at))
  {
    hide Valid, TimesStay, WithKey;
    var k := t.apiKeys[id].apiKey;
    EndKeyKeepsValid(t, k.(status := Revoked, revokedAt := Some(at)));
    EndKeyKeepsValid(t, k.(status := Revoked, revokedAt := Some(k.revokedAt.GetOr(at))));
  }

  lemma StatusKeepsValid(t: Tables, o: Organization)
    requires Valid(t) && o.id in t.organizations
    requires o.slug == t.organizations[o.id].slug && o.createdAt == t.organizations[o.id].createdAt
    ensures Valid(WithOrganization(t, o.id, o)) && TimesStay(t, WithOrganization(t, o.id, o))
  {
    hide SortKey, IdentityText, UsersOk, IdentitiesOk, OrganizationsOk, MembershipsOk, ApiKeysOk, AuditsOk, SessionsOk;
    StatusKeepsSlugs(t, o);
  }

  lemma StatusKeepsSlugs(t: Tables, o: Organization)
    requires OrganizationsOk(t.organizations, t.constraints) && o.id in t.organizations
    requires o.slug == t.organizations[o.id].slug
    ensures OrganizationsOk(t.organizations[o.id := o], t.constraints)
  {
  }

  lemma OrganizationIds(t: Tables, id: string)
    requires Valid(t) && id in t.organizations
    ensures t.organizations[id].id == id
  {
  }

  lemma RoleStep(t: Tables, c: Call, pinned: Option<string>)
    requires Valid(t) && Commits(t, RoleWrites(c, pinned))
    ensures var t' := ApplyAll(t, RoleWrites(c, pinned)); Valid(t') && TimesStay(t, t')
  {
    hide Valid, Commits, ApplyAll;
    CommittedTransition(t, c, pinned);
    TransitionKeepsValid(t, c);
  }

  lemma EffectsKeepValid(t: Tables, x: Worker, weather: Weather)
    requires Valid(t) && WorkerOk(t, x)
    ensures Valid(Effects(t, x, weather)) && TimesStay(t, Effects(t, x, weather))
  {
    hide Valid, AllHold, DistinctTargets, ApplyAll, WritesFor, Covers, MemberWrites, RenameWrites, RoleWrites, Delete,
         Revoke, Sweep, WithOrganization, KeptSlug, WithName, Reasons, SortKey;
    var weatherIsClear := weather.Clear?;
    match x.task {
      case Insert(rows, parents) =>
        if Commits(t, WritesFor(t, rows, parents)) { InsertStep(t, rows, parents); }
      case Grant(m) =>
        if x.stage.Granting? && Commits(t, MemberWrites(m, x.stage.organizationCreatedAt)) {
          GrantStep(t, m, x.stage.organizationCreatedAt);
        }
      case Update(o) =>
        if x.stage.Updating? && x.stage.plan.KeepSlug? && o.id in t.organizations {
          KeptSlugStep(t, o);
        } else if x.stage.Updating? && x.stage.plan.ChangeSlug? && Commits(t, RenameWrites(o, x.stage.plan.oldSlug)) {
          RenameStep(t, o, x.stage.plan.oldSlug);
        }
      case Remove(pair) => DeleteKeepsValid(t, pair);
      case EndKey(id, at) =>
        if IsActiveKey(t, id) && t.apiKeys[id].apiKey.id == id { EndedKeys(t, id, at); }
      case SweepKey(id, at) =>
        if IsActiveKey(t, id) && t.apiKeys[id].apiKey.id == id { EndedKeys(t, id, at); }
      case SetStatus(id, enable, at) =>
        if id in t.organizations {
          OrganizationIds(t, id);
          StatusKeepsValid(t, Enabled(t.organizations[id], at));
          StatusKeepsValid(t, KeyLifecycle.Disabled(t.organizations[id], at));
        }
      case ChangeRole(c, pinned) =>
        if Commits(t, RoleWrites(c, pinned)) { RoleStep(t, c, pinned); }
      case EditUser(id, name, at) =>
        if id in t.users { NameKeepsValid(t, id, name, at); }
    }
  }

  lemma NameKeepsValid(t: Tables, id: string, name: string, at: UtcTime)
    requires Valid(t) && id in t.users
    ensures Valid(WithName(t, id, name, at)) && TimesStay(t, WithName(t, id, name, at))
  {
    hide SortKey, IdentityText, IdentitiesOk, OrganizationsOk, MembershipsOk, ApiKeysOk, AuditsOk, SessionsOk;
  }

  lemma KeptSlugStep(t: Tables, o: Organization)
    requires Valid(t) && o.id in t.organizations
    ensures Valid(KeptSlug(t, o)) && TimesStay(t, KeptSlug(t, o))
  {
    hide Valid;
    KeptSlugKeepsValid(t, o);
  }

  lemma WorkersStay(t: Tables, t': Tables, x: Worker)
    requires WorkerOk(t, x) && TimesStay(t, t')
    ensures WorkerOk(t', x)
  {
    hide Covers;
  }

  lemma MovesKeepSound(w: State, move: Move, w': State)
    requires Sound(w) && Moves(w, move, w')
    ensures Sound(w')
  {
    hide Valid, Covers, Effects, TimesStay;
    match move {
      case Start(i, task) =>
      case Act(i, weather) =>
        var x := w.workers[i];
        EffectsKeepValid(w.tables, x, weather);
        forall j | j in w.workers && j != i ensures WorkerOk(w'.tables, w.workers[j]) {
          WorkersStay(w.tables, w'.tables, w.workers[j]);
        }
        StageIsOk(w.tables, x, weather);
        WorkersStay(w.tables, w'.tables, w'.workers[i]);
      case SaveSession(s) => SessionKeepsValid(w.tables, s);
    }
  }

  lemma StageIsOk(t: Tables, x: Worker, weather: Weather)
    requires WorkerOk(t, x)
    ensures WorkerOk(t, x.(stage := StageAfter(t, x, weather)))
  {
    hide Covers;
  }

  lemma SessionKeepsValid(t: Tables, s: Session)
    requires Valid(t)
    ensures Valid(t.(sessions := t.sessions[s.id := s]))
  {
    hide SortKey, IdentityText, UsersOk, IdentitiesOk, OrganizationsOk, MembershipsOk, ApiKeysOk, AuditsOk;
  }

  /** A run may start on any valid store with no call under way. */
  lemma QuietStart(t: Tables)
    requires Valid(t)
    ensures Sound(State(t, map[]))
  {
    hide Valid;
  }

  // ----- runs -----

  ghost predicate IsHistory(states: seq<State>, moves: seq<Move>) {
    && |states| == |moves| + 1
    && forall n | 0 <= n < |moves| :: Moves(states[n], moves[n], states[n + 1])
  }

  /** Every reachable state is valid: constraints invert the tables and every reference holds. */
  lemma {:induction false} ReachableIsValid(states: seq<State>, moves: seq<Move>, n: nat)
    requires IsHistory(states, moves) && Sound(states[0]) && n < |states|
    ensures Sound(states[n]) && Integrity(RowsOf(states[n].tables))
  {
    hide Moves, Integrity, RowsOf, Valid, WorkerOk;
    if n > 0 {
      ReachableIsValid(states, moves, n - 1);
      MovesKeepSound(states[n - 1], moves[n - 1], states[n]);
    }
    ValidTablesHaveIntegrity(states[n].tables);
  }

  // ----- lookups through the constraint items -----

  /** get_user_by_external_identity: the identity's constraint, then the user it names. */
  function UserByIdentity(t: Tables, p: Provider, subject: string, tenant: Option<Tenant>): Option<User> {
    var key := IdentityKey(IdentityText(p, subject, tenant));
    if key !in t.constraints || t.constraints[key].userId.None? then None
    else
      var owner := t.constraints[key].userId.value;
      if owner in t.users then Some(FromUserItem(t.users[owner])) else None
  }

  /** The join over both tables that the lookup stands for. */
  ghost predicate IsUserOf(r: Rows, p: Provider, subject: string, tenant: Option<Tenant>, u: User) {
    exists i :: i in r.identities && IdentityTuple(i) == (p, subject, TenantText(tenant)) && u in r.users && u.id == i.userId
  }

  predicate NoHash(identities: map<string, ExternalIdentity>) {
    forall k | k in identities :: '#' !in TenantText(identities[k].tenant)
  }

  /** With tenants free of '#', the two point reads answer the join. */
  lemma IdentityLookupIsScan(t: Tables, p: Provider, subject: string, tenant: Option<Tenant>, u: User)
    requires Valid(t) && NoHash(t.identities) && '#' !in TenantText(tenant)
    ensures UserByIdentity(t, p, subject, tenant) == Some(u) <==> IsUserOf(RowsOf(t), p, subject, tenant, u)
  {
    hide SortKey, IdentityText, OrganizationsOk, MembershipsOk, ApiKeysOk, AuditsOk, SessionsOk;
    var key := IdentityKey(IdentityText(p, subject, tenant));
    if UserByIdentity(t, p, subject, tenant) == Some(u) {
      var i := t.identities[t.constraints[key].entityId];
      IdentityTextIsInjective(i.provider, i.subject, i.tenant, p, subject, tenant);
      assert i in RowsOf(t).identities && u in RowsOf(t).users;
    }
    if IsUserOf(RowsOf(t), p, subject, tenant, u) {
      var i :| i in RowsOf(t).identities && IdentityTuple(i) == (p, subject, TenantText(tenant))
               && u in RowsOf(t).users && u.id == i.userId;
      assert i.tenant == tenant && t.identities[i.id] == i;
      StoredUserIs(t, u);
    }
  }

  lemma StoredUserIs(t: Tables, u: User)
    requires UsersOk(t.users) && u in UserRows(t.users)
    ensures u.id in t.users && FromUserItem(t.users[u.id]) == u
  {
  }

  /** The segment lookup answers the scan for that segment. */
  lemma SegmentLookupIsScan(t: Tables, segment: string, k: ApiKey)
    requires Valid(t)
    ensures KeyBySegment(t, segment) == Some(k) <==> k in RowsOf(t).apiKeys && k.keyId == segment
  {
    hide SortKey, IdentityText, UsersOk, IdentitiesOk, OrganizationsOk, MembershipsOk, AuditsOk, SessionsOk;
    if KeyBySegment(t, segment) == Some(k) {
      assert t.apiKeys[t.constraints[SegmentKey(segment)].entityId].apiKey in RowsOf(t).apiKeys;
    }
    if k in RowsOf(t).apiKeys && k.keyId == segment {
      assert t.apiKeys[k.id].apiKey == k;
      SegmentFindsKey(t, k.id);
    }
  }

  /** list_users_by_email walks the email index; WHERE email = ? scans the rows. */
  function EmailMatches(t: Tables, email: string): set<User> {
    set k | k in t.users && t.users[k].gEmail == Some(email) :: FromUserItem(t.users[k])
  }

  /** The index answers the scan exactly when no user of that address predates the index attribute. */
  lemma EmailLookupIsScan(t: Tables, email: string)
    requires Valid(t)
    ensures EmailMatches(t, email) == (set u | u in RowsOf(t).users && u.email == email)
       <==> forall k | k in t.users && t.users[k].email == email :: t.users[k].gEmail.Some?
  {
    hide SortKey, IdentityText, IdentitiesOk, OrganizationsOk, MembershipsOk, ApiKeysOk, AuditsOk, SessionsOk, ReferencesHold;
    forall k | k in t.users && t.users[k].email == email
      ensures FromUserItem(t.users[k]) in RowsOf(t).users
      ensures FromUserItem(t.users[k]) in EmailMatches(t, email) <==> t.users[k].gEmail.Some?
    {
      UserIdsDiffer(t, k, email);
    }
  }

  lemma UserIdsDiffer(t: Tables, k: string, email: string)
    requires UsersOk(t.users) && k in t.users && t.users[k].email == email
    ensures FromUserItem(t.users[k]) in UserRows(t.users)
    ensures FromUserItem(t.users[k]) in EmailMatches(t, email) <==> t.users[k].gEmail.Some?
  {
  }

  /** The literal is the printed form of this key's segment with a secret that hashes to the stored value. */
  ghost predicate IsLiteralOf(hmac: string -> string, literal: string, k: ApiKey) {
    exists secret :: hmac(secret) == k.secretHash && BuildLiteral(Credential(k.environment, k.keyId, secret)) == Some(literal)
  }

  /** Verification accepts exactly the literals of stored keys that are active and not expired. */
  lemma OnlyGenuineLiteralsVerify(t: Tables, hmac: string -> string, literal: string, now: UtcTime, k: ApiKey)
    requires Valid(t)
    ensures VerifyApiKey(t, hmac, literal, now) == Some(k)
       <==> k in RowsOf(t).apiKeys && k.status == KeyActive && IsLiteralOf(hmac, literal, k)
            && (k.expiresAt.None? || Instant(now) < Instant(k.expiresAt.value))
  {
    hide Valid, RowsOf, KeyBySegment, ParseLiteral, BuildLiteral, Expired, Instant;
    ExpiresAtItsInstant(k, now);
    if VerifyApiKey(t, hmac, literal, now) == Some(k) {
      var parsed := ParseLiteral(literal).value;
      SegmentLookupIsScan(t, parsed.keyId, k);
      LiteralBijection(parsed, literal);
    }
    if k in RowsOf(t).apiKeys && k.status == KeyActive && !Expired(k, now) && IsLiteralOf(hmac, literal, k) {
      var secret :| hmac(secret) == k.secretHash && BuildLiteral(Credential(k.environment, k.keyId, secret)) == Some(literal);
      LiteralBijection(Credential(k.environment, k.keyId, secret), literal);
      SegmentLookupIsScan(t, k.keyId, k);
    }
  }
}
