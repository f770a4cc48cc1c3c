/**
 Ownership of organizations. Organizations are created together with their owner's
 membership; adding and removing members are separate, non-atomic calls. Whatever their
 interleaving, every organization keeps exactly one owner membership, its creator's.
 */
module Ownership {
  import opened Outcomes
  import opened Timestamps
  import opened Domain
  import opened Keys
  import opened Items
  import opened Transactions
  import opened Batches
  import opened Provisioning

  // ----- the calls -----

  datatype Task =
    | CreateOrganization(creator: string, name: string, slug: string, kind: OrganizationType, now: UtcTime,
                         ids: OrganizationIds)
    | FirstLogin(profile: Profile, now: UtcTime, loginIds: Ids)
    | AddMember(actor: string, organization: string, user: string, role: MembershipRole, now: UtcTime,
                membershipId: string, auditId: string)
    | RemoveMember(actor: string, organization: string, user: string, now: UtcTime, auditId: string)

  datatype MemberError =
    | TypeNotSelectable
    | SlugConflict
    | OwnerRoleNotAssignable
    | OwnerMembershipImmutable
    | TargetUserNotFound
    | MembershipConflict
    | MemberNotFound
    | Storage(error: StorageError)

  datatype Phase =
    | Started
    | Granting(organizationCreatedAt: UtcTime)
    | Deleting(seen: Membership)
    | Auditing(event: AuditEvent)
    | Succeeded
    | Rejected(error: MemberError)

  datatype Client = Client(task: Task, attempts: nat, phase: Phase)

  /** creators records who created each organization. */
  datatype World = World(tables: Tables, clients: map<nat, Client>, creators: map<string, string>)

  datatype Step = Begin(client: nat, task: Task) | Go(client: nat, weather: Weather) | Elsewhere

  function RoleLabel(role: MembershipRole): string {
    match role
    case Owner => "owner"
    case OrganizationAdmin => "admin"
    case Member => "member"
    case Viewer => "viewer"
  }

  function OrganizationBatchOf(c: Task): OrganizationBatch
    requires c.CreateOrganization?
  {
    BuildOrganizationBatch(c.creator, c.name, c.slug, c.kind, c.now, c.ids)
  }

  function NewMember(c: Task): Membership
    requires c.AddMember?
  {
    Membership(c.membershipId, c.organization, c.user, c.role, Active, c.now)
  }

  function GrantEvent(c: Task): AuditEvent
    requires c.AddMember?
  {
    AuditEvent(c.auditId, c.organization, c.actor, "membership.created", Some(c.membershipId),
               map["role" := RoleLabel(c.role)], c.now)
  }

  function RemovalEvent(c: Task, removed: Membership): AuditEvent
    requires c.RemoveMember?
  {
    AuditEvent(c.auditId, c.organization, c.actor, "membership.removed", Some(removed.id),
               map["role" := RoleLabel(removed.role)], c.now)
  }

  // ----- their writes -----

  function MemberWrites(m: Membership, organizationCreatedAt: UtcTime): seq<Write> {
    [PutMembership(ToMembershipItem(m, organizationCreatedAt)),
     PutConstraint(MembershipIdKey(m.id), ConstraintItem(m.id, None)),
     RequireOrganization(m.organizationId), RequireUser(m.userId)]
  }

  function MemberConflicts(): seq<Conflict> {
    [DuplicateConflict(MembershipPair), DuplicateConflict(EntityId), ReferenceConflict, ReferenceConflict]
  }

  function AuditWrites(e: AuditEvent): seq<Write> {
    [PutAudit(e), RequireOrganization(e.organizationId)]
  }

  function AuditConflicts(): seq<Conflict> {
    [DuplicateConflict(EntityId), ReferenceConflict]
  }

  // ----- the program of one call -----

  /** What follows a transaction: success, another attempt, or the translated error. */
  function AfterWrite(c: Client, verdict: Option<Verdict>, success: Phase): Phase {
    match verdict
    case None => success
    case Some(Retry) =>
      if c.attempts + 1 < MAX_TRANSACTION_ATTEMPTS then c.phase else Rejected(Storage(Failed))
    case Some(RoleCasMiss) => Rejected(Storage(Failed))
    case Some(Fail(e)) => Rejected(Translated(c, e))
  }

  function Translated(c: Client, e: StorageError): MemberError {
    if c.phase.Started? && c.task.CreateOrganization? && e == Duplicate(OrganizationSlug) then SlugConflict
    else if c.phase.Granting? && e == ReferenceNotFound then TargetUserNotFound
    else if c.phase.Granting? && e == Duplicate(MembershipPair) then MembershipConflict
    else Storage(e)
  }

  /** A conditional delete by pair; it does not look at the role again. */
  function Delete(t: Tables, pair: (string, string)): Tables {
    t.(memberships := t.memberships - {pair})
  }

  function PairOfTask(c: Task): (string, string)
    requires c.AddMember? || c.RemoveMember?
  {
    (c.organization, c.user)
  }

  /** The transaction a call submits next, if its next interaction is one. */
  function NextWrites(c: Client): Option<(seq<Write>, seq<Conflict>, Phase)> {
    match c.phase
    case Started =>
      if c.task.CreateOrganization? && c.task.kind == Customer then
        Some((OrganizationWrites(OrganizationBatchOf(c.task)), OrganizationConflicts(), Succeeded))
      else if c.task.FirstLogin? then
        Some((LoginWrites(BuildBatch(c.task.profile, c.task.now, c.task.loginIds)), LoginConflicts(), Succeeded))
      else None
    case Granting(createdAt) =>
      if c.task.AddMember?
      then Some((MemberWrites(NewMember(c.task), createdAt), MemberConflicts(), Auditing(GrantEvent(c.task))))
      else None
    case Auditing(event) => Some((AuditWrites(event), AuditConflicts(), Succeeded))
    case _ => None
  }

  /** A step that reads, refuses or deletes: the items after it and the next phase. */
  function Interact(t: Tables, c: Client, weather: Weather): (Tables, Phase) {
    match c.phase
    case Started =>
      (match c.task
       case CreateOrganization(_, _, _, _, _, _) => (t, Rejected(TypeNotSelectable))
       case FirstLogin(_, _, _) => (t, c.phase)
       case AddMember(_, organization, _, role, _, _, _) =>
         (t, if role == Owner then Rejected(OwnerRoleNotAssignable)
             else if organization !in t.organizations then Rejected(TargetUserNotFound)
             else Granting(t.organizations[organization].createdAt))
       case RemoveMember(_, _, _, _, _) =>
         (t, if PairOfTask(c.task) !in t.memberships then Rejected(MemberNotFound)
             else if t.memberships[PairOfTask(c.task)].membership.role == Owner then Rejected(OwnerMembershipImmutable)
             else Deleting(t.memberships[PairOfTask(c.task)].membership)))
    case Deleting(seen) =>
      if !c.task.RemoveMember? then (t, c.phase)
      else
        (match weather
         case Clear =>
           if PairOfTask(c.task) in t.memberships
           then (Delete(t, PairOfTask(c.task)), Auditing(RemovalEvent(c.task, seen)))
           else (t, Rejected(MemberNotFound))
         case Contended => (t, if c.attempts + 1 < MAX_TRANSACTION_ATTEMPTS then c.phase else Rejected(Storage(Failed)))
         case _ => (t, Rejected(Storage(Failed))))
    case _ => (t, c.phase)
  }

  /** Retries are counted per storage call. */
  function Advanced(c: Client, phase: Phase): Client {
    c.(phase := phase, attempts := if phase == c.phase then c.attempts + 1 else 0)
  }

  /** Descriptors are aligned with their items, so a transaction step is always possible. */
  lemma NextWritesAlign(c: Client)
    ensures NextWrites(c).Some? ==> |NextWrites(c).value.0| == |NextWrites(c).value.1| > 0
  {
    hide SortKey, IdentityText;
  }

  /** The organization this transaction creates, and its creator. */
  function Creation(c: Client): Option<(string, string)> {
    if c.phase.Started? && c.task.CreateOrganization? then Some((c.task.ids.organization, c.task.creator))
    else if c.phase.Started? && c.task.FirstLogin? then Some((c.task.loginIds.organization, c.task.loginIds.user))
    else None
  }

  function WithCreator(creators: map<string, string>, creation: Option<(string, string)>): map<string, string> {
    if creation.Some? then creators[creation.value.0 := creation.value.1] else creators
  }

  /** Nothing else touches memberships, or adds or removes an organization. */
  ghost predicate LeavesMembershipsAlone(t: Tables, t': Tables) {
    && t'.memberships == t.memberships && t'.organizations.Keys == t.organizations.Keys
    && forall k | k in t.organizations :: t'.organizations[k].createdAt == t.organizations[k].createdAt
  }

  ghost predicate Goes(w: World, i: nat, weather: Weather, w': World)
    requires i in w.clients
  {
    var c := w.clients[i];
    match NextWrites(c)
    case Some((ws, conflicts, success)) =>
      NextWritesAlign(c);
      var a := Attempt(w.tables, weather);
      var verdict := Judge(a, ws, conflicts);
      w' == World(ItemsAfter(a, ws), w.clients[i := Advanced(c, AfterWrite(c, verdict, success))],
                  if verdict.None? then WithCreator(w.creators, Creation(c)) else w.creators)
    case None =>
      var (t', phase) := Interact(w.tables, c, weather);
      w' == w.(tables := t', clients := w.clients[i := Advanced(c, phase)])
  }

  ghost predicate Next(w: World, step: Step, w': World) {
    match step
    case Begin(i, task) => i !in w.clients && w' == w.(clients := w.clients[i := Client(task, 0, Started)])
    case Go(i, weather) => i in w.clients && Goes(w, i, weather, w')
    case Elsewhere => LeavesMembershipsAlone(w.tables, w'.tables) && w' == w.(tables := w'.tables)
  }

  // ----- the invariant -----

  /** Each organization's one owner membership is its creator's, and it is active. */
  ghost predicate OwnersOk(t: Tables, creators: map<string, string>) {
    && creators.Keys == t.organizations.Keys
    && (forall o | o in creators ::
          && (o, creators[o]) in t.memberships
          && t.memberships[(o, creators[o])].membership.role == Owner
          && t.memberships[(o, creators[o])].membership.status == Active)
    && (forall k | k in t.memberships ::
          && k == PairOf(t.memberships[k].membership)
          && k.0 in creators
          && (t.memberships[k].membership.role == Owner ==> k.1 == creators[k.0]))
  }

  /** A grant never carries the owner role; a pending removal never aims at an owner. */
  ghost predicate ClientOk(creators: map<string, string>, c: Client) {
    && (c.phase.Granting? ==> c.task.AddMember? && c.task.role != Owner)
    && (c.phase.Deleting? ==>
          c.task.RemoveMember? && c.task.organization in creators && c.task.user != creators[c.task.organization])
  }

  ghost predicate Inv(w: World) {
    OwnersOk(w.tables, w.creators) && forall i | i in w.clients :: ClientOk(w.creators, w.clients[i])
  }

  // ----- the effect of a transaction on memberships and organizations -----

  lemma OneWrite(t: Tables, w: Write)
    ensures !w.PutMembership? ==> Apply(t, w).memberships == t.memberships
    ensures !w.PutOrganization? && !w.Rename? ==> Apply(t, w).organizations == t.organizations
  {
  }

  lemma {:induction false} NoMembershipPut(t: Tables, ws: seq<Write>)
    requires forall i | 0 <= i < |ws| :: !ws[i].PutMembership?
    ensures ApplyAll(t, ws).memberships == t.memberships
  {
    hide Apply;
    if ws != [] {
      NoMembershipPut(t, ws[..|ws| - 1]);
      OneWrite(ApplyAll(t, ws[..|ws| - 1]), ws[|ws| - 1]);
    }
  }

  lemma OneMembershipPut(t: Tables, ws: seq<Write>, n: nat)
    requires n < |ws| && ws[n].PutMembership? && forall i | 0 <= i < |ws| && i != n :: !ws[i].PutMembership?
    ensures ApplyAll(t, ws).memberships == t.memberships[PairOf(ws[n].membership.membership) := ws[n].membership]
  {
    var before, rest := ws[..n], ws[n + 1..];
    assert ws == (before + [ws[n]]) + rest;
    NoMembershipPut(t, before);
    OneStep(ApplyAll(t, before), ws[n]);
    ApplyAllAppends(t, before, [ws[n]]);
    NoMembershipPut(ApplyAll(t, before + [ws[n]]), rest);
    ApplyAllAppends(t, before + [ws[n]], rest);
  }

  lemma {:induction false} NoOrganizationPut(t: Tables, ws: seq<Write>)
    requires forall i | 0 <= i < |ws| :: !ws[i].PutOrganization? && !ws[i].Rename?
    ensures ApplyAll(t, ws).organizations == t.organizations
  {
    hide Apply;
    if ws != [] {
      NoOrganizationPut(t, ws[..|ws| - 1]);
      OneWrite(ApplyAll(t, ws[..|ws| - 1]), ws[|ws| - 1]);
    }
  }

  lemma OneOrganizationPut(t: Tables, ws: seq<Write>, n: nat)
    requires n < |ws| && ws[n].PutOrganization?
    requires forall i | 0 <= i < |ws| && i != n :: !ws[i].PutOrganization? && !ws[i].Rename?
    ensures ApplyAll(t, ws).organizations == t.organizations[ws[n].organization.id := ws[n].organization]
  {
    var before, rest := ws[..n], ws[n + 1..];
    assert ws == (before + [ws[n]]) + rest;
    NoOrganizationPut(t, before);
    OneStep(ApplyAll(t, before), ws[n]);
    ApplyAllAppends(t, before, [ws[n]]);
    NoOrganizationPut(ApplyAll(t, before + [ws[n]]), rest);
    ApplyAllAppends(t, before + [ws[n]], rest);
  }

  /** Committed writes change memberships and organizations in one of three ways. */
  ghost predicate Effect(t: Tables, c: Client, t': Tables) {
    match Creation(c)
    case Some((organization, creator)) =>
      && organization !in t.organizations
      && t'.organizations.Keys == t.organizations.Keys + {organization}
      && exists item: MembershipItem ::
           && item.membership.role == Owner && item.membership.status == Active
           && PairOf(item.membership) == (organization, creator)
           && t'.memberships == t.memberships[(organization, creator) := item]
    case None =>
      && t'.organizations == t.organizations
      && (t'.memberships == t.memberships
          || (c.phase.Granting? && c.task.AddMember?
              && var m := NewMember(c.task);
                 && m.organizationId in t.organizations && PairOf(m) !in t.memberships
                 && t'.memberships == t.memberships[PairOf(m) := ToMembershipItem(m, c.phase.organizationCreatedAt)]))
  }

  lemma CreationEffect(t: Tables, ws: seq<Write>, c: Client, o: Organization, item: MembershipItem, n: nat, m: nat)
    requires n < |ws| && ws[n] == PutOrganization(o) && AllHold(t, ws)
    requires m < |ws| && ws[m] == PutMembership(item)
    requires forall i | 0 <= i < |ws| && i != n :: !ws[i].PutOrganization? && !ws[i].Rename?
    requires forall i | 0 <= i < |ws| && i != m :: !ws[i].PutMembership?
    requires item.membership.role == Owner && item.membership.status == Active
    requires Creation(c) == Some((o.id, item.membership.userId)) && item.membership.organizationId == o.id
    ensures Effect(t, c, ApplyAll(t, ws))
  {
    hide ApplyAll, SortKey;
    OneOrganizationPut(t, ws, n);
    OneMembershipPut(t, ws, m);
    assert Holds(t, ws[n]);
  }

  lemma GrantEffect(t: Tables, c: Client)
    requires c.phase.Granting? && c.task.AddMember?
    requires AllHold(t, MemberWrites(NewMember(c.task), c.phase.organizationCreatedAt))
    ensures Effect(t, c, ApplyAll(t, MemberWrites(NewMember(c.task), c.phase.organizationCreatedAt)))
  {
    hide ApplyAll, SortKey;
    var ws := MemberWrites(NewMember(c.task), c.phase.organizationCreatedAt);
    OneMembershipPut(t, ws, 0);
    NoOrganizationPut(t, ws);
    assert Holds(t, ws[0]) && Holds(t, ws[2]);
  }

  lemma WritesEffect(t: Tables, c: Client)
    requires NextWrites(c).Some? && AllHold(t, NextWrites(c).value.0)
    ensures Effect(t, c, ApplyAll(t, NextWrites(c).value.0))
  {
    hide ApplyAll, SortKey, IdentityText, AllHold, Effect;
    var ws := NextWrites(c).value.0;
    if c.phase.Granting? {
      GrantEffect(t, c);
    } else if c.phase.Auditing? {
      NoMembershipPut(t, ws);
      NoOrganizationPut(t, ws);
      assert Effect(t, c, ApplyAll(t, ws)) by { QuietEffect(t, c, ApplyAll(t, ws)); }
    } else if c.task.CreateOrganization? {
      var b := OrganizationBatchOf(c.task);
      CreationEffect(t, ws, c, b.organization, ToMembershipItem(b.membership, b.organization.createdAt), 0, 2);
    } else {
      var b := BuildBatch(c.task.profile, c.task.now, c.task.loginIds);
      CreationEffect(t, ws, c, b.organization, ToMembershipItem(b.membership, b.organization.createdAt), 3, 5);
    }
  }

  lemma QuietEffect(t: Tables, c: Client, t': Tables)
    requires Creation(c).None? && t'.organizations == t.organizations && t'.memberships == t.memberships
    ensures Effect(t, c, t')
  {
  }

  // ----- every step keeps the invariant -----

  lemma CreationKeepsOwners(t: Tables, creators: map<string, string>, o: string, creator: string, item: MembershipItem,
                            t': Tables)
    requires OwnersOk(t, creators) && o !in t.organizations
    requires item.membership.role == Owner && item.membership.status == Active && PairOf(item.membership) == (o, creator)
    requires t'.organizations.Keys == t.organizations.Keys + {o}
    requires t'.memberships == t.memberships[(o, creator) := item]
    ensures OwnersOk(t', creators[o := creator])
  {
    assert o !in creators;
  }

  lemma GrantKeepsOwners(t: Tables, creators: map<string, string>, item: MembershipItem, t': Tables)
    requires OwnersOk(t, creators) && item.membership.role != Owner
    requires item.membership.organizationId in t.organizations && PairOf(item.membership) !in t.memberships
    requires t'.organizations == t.organizations && t'.memberships == t.memberships[PairOf(item.membership) := item]
    ensures OwnersOk(t', creators)
  {
  }

  lemma EffectKeepsOwners(t: Tables, creators: map<string, string>, c: Client, t': Tables)
    requires OwnersOk(t, creators) && ClientOk(creators, c) && Effect(t, c, t')
    ensures OwnersOk(t', WithCreator(creators, Creation(c)))
  {
    hide SortKey, OwnersOk;
    match Creation(c) {
      case Some((o, creator)) =>
        var item: MembershipItem :|
          && item.membership.role == Owner && item.membership.status == Active
          && PairOf(item.membership) == (o, creator)
          && t'.memberships == t.memberships[(o, creator) := item];
        CreationKeepsOwners(t, creators, o, creator, item, t');
      case None =>
        if t'.memberships == t.memberships {
          SameOwners(t, t', creators);
        } else {
          GrantKeepsOwners(t, creators, ToMembershipItem(NewMember(c.task), c.phase.organizationCreatedAt), t');
        }
    }
  }

  lemma SameOwners(t: Tables, t': Tables, creators: map<string, string>)
    requires OwnersOk(t, creators) && t'.memberships == t.memberships && t'.organizations.Keys == t.organizations.Keys
    ensures OwnersOk(t', creators)
  {
  }

  lemma DeleteKeepsOwners(t: Tables, creators: map<string, string>, pair: (string, string))
    requires OwnersOk(t, creators) && pair.0 in creators && pair.1 != creators[pair.0]
    ensures OwnersOk(Delete(t, pair), creators)
  {
  }

  /** A membership seen with another role than owner is not its organization's owner. */
  lemma SeenIsNoOwner(t: Tables, creators: map<string, string>, pair: (string, string))
    requires OwnersOk(t, creators) && pair in t.memberships && t.memberships[pair].membership.role != Owner
    ensures pair.0 in creators && pair.1 != creators[pair.0]
  {
  }

  lemma CreatorsStay(t: Tables, creators: map<string, string>, c: Client, t': Tables)
    requires OwnersOk(t, creators) && Effect(t, c, t')
    ensures forall o | o in creators ::
              o in WithCreator(creators, Creation(c)) && WithCreator(creators, Creation(c))[o] == creators[o]
  {
    hide SortKey;
  }

  lemma InteractKeepsInv(w: World, i: nat, weather: Weather, w': World)
    requires Inv(w) && i in w.clients && NextWrites(w.clients[i]).None? && Goes(w, i, weather, w')
    ensures Inv(w')
  {
    hide SortKey, IdentityText, OwnersOk, NextWrites;
    var c := w.clients[i];
    if c.task.RemoveMember? {
      var pair := PairOfTask(c.task);
      if c.phase.Deleting? {
        DeleteKeepsOwners(w.tables, w.creators, pair);
      } else if pair in w.tables.memberships && w.tables.memberships[pair].membership.role != Owner {
        SeenIsNoOwner(w.tables, w.creators, pair);
      }
    }
  }

  lemma WriteKeepsInv(w: World, i: nat, weather: Weather, w': World)
    requires Inv(w) && i in w.clients && NextWrites(w.clients[i]).Some? && Goes(w, i, weather, w')
    ensures Inv(w')
  {
    hide SortKey, IdentityText, OwnersOk, Effect, LoginWrites, BuildBatch, OrganizationBatchOf;
    var c := w.clients[i];
    if Respond(Attempt(w.tables, weather), NextWrites(c).value.0).Committed? {
      WritesEffect(w.tables, c);
      EffectKeepsOwners(w.tables, w.creators, c, w'.tables);
      CreatorsStay(w.tables, w.creators, c, w'.tables);
    }
  }

  lemma NextKeepsInv(w: World, step: Step, w': World)
    requires Inv(w) && Next(w, step, w')
    ensures Inv(w')
  {
    hide SortKey, IdentityText, Goes, NextWrites, OwnersOk;
    match step {
      case Go(i, weather) =>
        if NextWrites(w.clients[i]).None? {
          InteractKeepsInv(w, i, weather, w');
        } else {
          WriteKeepsInv(w, i, weather, w');
        }
      case Elsewhere => SameOwners(w.tables, w'.tables, w.creators);
      case _ =>
    }
  }

  /** A run may start on any store without organizations. */
  lemma QuietStart(t: Tables)
    requires t.organizations == map[] && t.memberships == map[]
    ensures Inv(World(t, map[], map[]))
  {
  }

  // ----- runs -----

  ghost predicate IsRun(run: seq<World>, steps: seq<Step>) {
    && |run| == |steps| + 1
    && forall n | 0 <= n < |steps| :: Next(run[n], steps[n], run[n + 1])
  }

  lemma {:induction false} RunKeepsInv(run: seq<World>, steps: seq<Step>, n: nat)
    requires IsRun(run, steps) && Inv(run[0]) && n < |run|
    ensures Inv(run[n])
  {
    hide Next, Inv;
    if n > 0 {
      RunKeepsInv(run, steps, n - 1);
      NextKeepsInv(run[n - 1], steps[n - 1], run[n]);
    }
  }

  /** The owner membership of an organization is the very item it was created with. */
  ghost predicate SameOwner(w: World, w': World, o: string) {
    && o in w.creators && o in w'.creators && w'.creators[o] == w.creators[o]
    && (o, w.creators[o]) in w.tables.memberships && (o, w.creators[o]) in w'.tables.memberships
    && w'.tables.memberships[(o, w.creators[o])] == w.tables.memberships[(o, w.creators[o])]
  }

  lemma EffectKeepsOwnerItem(t: Tables, creators: map<string, string>, c: Client, t': Tables, o: string)
    requires OwnersOk(t, creators) && ClientOk(creators, c) && Effect(t, c, t') && o in creators
    ensures (o, creators[o]) in t'.memberships
    ensures t'.memberships[(o, creators[o])] == t.memberships[(o, creators[o])]
  {
    hide SortKey;
  }

  lemma WriteKeepsOwnerItem(w: World, i: nat, weather: Weather, w': World, o: string)
    requires Inv(w) && i in w.clients && NextWrites(w.clients[i]).Some? && Goes(w, i, weather, w') && o in w.creators
    ensures SameOwner(w, w', o)
  {
    hide SortKey, IdentityText, NextWrites, Effect, LoginWrites, OwnersOk, ClientOk, Creation;
    var c := w.clients[i];
    OwnerIsThere(w.tables, w.creators, o);
    if Respond(Attempt(w.tables, weather), NextWrites(c).value.0).Committed? {
      WritesEffect(w.tables, c);
      EffectKeepsOwnerItem(w.tables, w.creators, c, w'.tables, o);
      CreatorsStay(w.tables, w.creators, c, w'.tables);
    }
  }

  lemma OwnerIsThere(t: Tables, creators: map<string, string>, o: string)
    requires OwnersOk(t, creators) && o in creators
    ensures (o, creators[o]) in t.memberships
  {
  }

  lemma InteractKeepsOwnerItem(w: World, i: nat, weather: Weather, w': World, o: string)
    requires Inv(w) && i in w.clients && NextWrites(w.clients[i]).None? && Goes(w, i, weather, w') && o in w.creators
    ensures SameOwner(w, w', o)
  {
    hide SortKey, IdentityText, NextWrites, OwnersOk;
    OwnerIsThere(w.tables, w.creators, o);
  }

  lemma NextKeepsOwnerItem(w: World, step: Step, w': World, o: string)
    requires Inv(w) && Next(w, step, w') && o in w.creators
    ensures SameOwner(w, w', o)
  {
    hide NextWrites, Goes, OwnersOk;
    match step {
      case Go(i, weather) =>
        if NextWrites(w.clients[i]).Some? {
          WriteKeepsOwnerItem(w, i, weather, w', o);
        } else {
          InteractKeepsOwnerItem(w, i, weather, w', o);
        }
      case _ => OwnerIsThere(w.tables, w.creators, o);
    }
  }

  /**
   Owner invariant over every run: at every point each organization has exactly one owner
   membership, its creator's, and it is active and never replaced.
   */
  lemma {:induction false} OwnershipIsKept(run: seq<World>, steps: seq<Step>, m: nat, n: nat, o: string)
    requires IsRun(run, steps) && Inv(run[0]) && m <= n < |run| && o in run[m].creators
    ensures OwnersOk(run[n].tables, run[n].creators) && SameOwner(run[m], run[n], o)
  {
    hide Next;
    RunKeepsInv(run, steps, n);
    if m < n {
      OwnershipIsKept(run, steps, m, n - 1, o);
      RunKeepsInv(run, steps, n - 1);
      NextKeepsOwnerItem(run[n - 1], steps[n - 1], run[n], o);
    }
  }
}
