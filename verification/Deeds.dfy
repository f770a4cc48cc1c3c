/**
 What the operations of the key-value store do. An interaction in clear weather has exactly
 the effect its call stands for, one that is turned away has none, and every user who comes
 in through them is found by every index, whatever else goes on.
 */
module Deeds {
  import opened Outcomes
  import opened Timestamps
  import opened Domain
  import opened Keys
  import opened Relational
  import opened Items
  import opened Transactions
  import opened Batches
  import opened Refinement
  import opened Reachable
  import Guarantees

  // ----- the effect each call stands for -----

  /** The batch went in as a whole, exactly when the SQL transaction would and nothing obstructs it. */
  ghost predicate InsertsRows(t: Tables, rows: seq<Row>, t': Tables) {
    if InsertAll(RowsOf(t), StoredAll(rows)).Ok? && Unobstructed(t, rows)
    then RowsOf(t') == PlusAll(RowsOf(t), rows) else t' == t
  }

  /** Name, name status and time are the new ones, and the slug is the one given. */
  ghost predicate RewritesOrganization(t: Tables, o: Organization, slug: string, t': Tables) {
    && o.id in t.organizations
    && var s := t.organizations[o.id];
       t'.organizations == t.organizations[o.id :=
         Organization(s.id, o.name, slug, s.kind, s.status, o.nameStatus, s.suspendedAt, s.createdAt, o.updatedAt)]
  }

  ghost predicate UpdatesOrganization(t: Tables, o: Organization, plan: Renames.Plan, t': Tables) {
    match plan
    case Missing => t' == t
    case KeepSlug =>
      if o.id in t.organizations
      then RewritesOrganization(t, o, t.organizations[o.id].slug, t') && t' == t.(organizations := t'.organizations)
      else t' == t
    case ChangeSlug(oldSlug) =>
      if o.id in t.organizations && t.organizations[o.id].slug == oldSlug && SlugKey(o.slug) !in t.constraints
      then
        && RewritesOrganization(t, o, o.slug, t')
        && t' == t.(organizations := t'.organizations,
                    constraints := (t.constraints - {SlugKey(oldSlug)})[SlugKey(o.slug) := ConstraintItem(o.id, None)])
      else t' == t
  }

  /** An active key is revoked, at the given time unless it already carries one that stays. */
  ghost predicate EndsKey(t: Tables, id: string, revokedAt: UtcTime, t': Tables) {
    if id in t.apiKeys && t.apiKeys[id].apiKey.status == KeyActive
    then t' == t.(apiKeys := t.apiKeys[id :=
                    t.apiKeys[id].(apiKey := t.apiKeys[id].apiKey.(status := Revoked, revokedAt := Some(revokedAt)))])
    else t' == t
  }

  /** The time a sweep leaves in a key. */
  function FirstTime(t: Tables, id: string, at: UtcTime): UtcTime {
    if id in t.apiKeys && t.apiKeys[id].apiKey.revokedAt.Some? then t.apiKeys[id].apiKey.revokedAt.value else at
  }

  ghost predicate SetsStatus(t: Tables, id: string, status: Status, suspendedAt: Option<UtcTime>, at: UtcTime, t': Tables) {
    if id in t.organizations
    then
      var s := t.organizations[id];
      t' == t.(organizations := t.organizations[id :=
                 Organization(s.id, s.name, s.slug, s.kind, status, s.nameStatus, suspendedAt, s.createdAt, at)])
    else t' == t
  }

  /** The first time an organization was suspended since it was last active. */
  function FirstSuspension(t: Tables, id: string, at: UtcTime): UtcTime {
    if id in t.organizations && t.organizations[id].suspendedAt.Some? then t.organizations[id].suspendedAt.value else at
  }

  /** Role, index role, time and event, if the target has the role expected and the witness is one. */
  ghost predicate ChangesRole(t: Tables, c: RoleTransitions.Call, witnessId: Option<string>, t': Tables) {
    if c.userId in t.users && t.users[c.userId].role == Some(c.expected)
       && c.audit.id !in t.audits && c.audit.organizationId in t.organizations
       && (witnessId.Some? ==> witnessId.value != c.userId && witnessId.value in t.users
                               && t.users[witnessId.value].role == Some(Admin) && t.users[witnessId.value].status == Active)
    then
      t' == t.(users := t.users[c.userId :=
                 t.users[c.userId].(role := Some(c.role), gRole := Some(c.role), updatedAt := c.at)],
               audits := t.audits[c.audit.id := c.audit])
    else t' == t
  }

  ghost predicate EditsUser(t: Tables, id: string, name: string, at: UtcTime, t': Tables) {
    if id in t.users then t' == t.(users := t.users[id := t.users[id].(displayName := name, updatedAt := at)]) else t' == t
  }

  /** What a call's next interaction does in clear weather; finished calls and reads do nothing. */
  ghost predicate Does(t: Tables, x: Worker, t': Tables) {
    match x.task
    case Insert(rows, _) => if x.stage.Ready? then InsertsRows(t, rows, t') else t' == t
    case Grant(m) => if x.stage.Granting? then InsertsRows(t, [MembershipRow(m)], t') else t' == t
    case Update(o) => if x.stage.Updating? then UpdatesOrganization(t, o, x.stage.plan, t') else t' == t
    case Remove(pair) => if x.stage.Ready? then t' == t.(memberships := t.memberships - {pair}) else t' == t
    case EndKey(id, at) => if x.stage.Ready? then EndsKey(t, id, at, t') else t' == t
    case SweepKey(id, at) => if x.stage.Ready? then EndsKey(t, id, FirstTime(t, id, at), t') else t' == t
    case SetStatus(id, enable, at) =>
      if !x.stage.Ready? then t' == t
      else if enable then SetsStatus(t, id, Active, None, at, t')
      else SetsStatus(t, id, Disabled, Some(FirstSuspension(t, id, at)), at, t')
    case ChangeRole(c, witnessId) => if x.stage.Ready? then ChangesRole(t, c, witnessId, t') else t' == t
    case EditUser(id, name, at) => if x.stage.Ready? then EditsUser(t, id, name, at, t') else t' == t
  }

  lemma InsertsDo(t: Tables, x: Worker, weather: Weather)
    requires Valid(t) && WorkerOk(t, x) && weather.Clear? && Guarantees.Adds(x.task)
    ensures Does(t, x, Effects(t, x, weather))
  {
    hide Valid, ApplyAll, WritesFor, Covers, Ownership.MemberWrites, AllHold, DistinctTargets, RowsOf, PlusAll, InsertAll,
         StoredAll, Unobstructed, NoneSuspended;
    if x.task.Insert? {
      BatchRefines(t, x.task.rows, x.task.parents);
    } else if x.stage.Granting? {
      var m := x.task.membership;
      GrantIsInsert(t, m);
      BatchRefines(t, [MembershipRow(m)], [OrganizationParent(m.organizationId), UserParent(m.userId)]);
    }
  }

  lemma UpdatesDo(t: Tables, x: Worker, weather: Weather)
    requires Valid(t) && WorkerOk(t, x) && weather.Clear? && x.task.Update?
    ensures Does(t, x, Effects(t, x, weather))
  {
    hide Valid, ApplyAll, Commits, Submitting, Renames.RenameWrites, WritesFor, RoleTransitions.RoleWrites,
         Ownership.MemberWrites, InsertsRows, ChangesRole, EditsUser, SetsStatus, EndsKey;
    var o := x.task.organization;
    if x.stage.Updating? && x.stage.plan.ChangeSlug? {
      var oldSlug := x.stage.plan.oldSlug;
      Renames.RenameCommits(t, o, oldSlug);
      Guarantees.SubmittingLeaves(t, Renames.RenameWrites(o, oldSlug), weather);
      if o.id in t.organizations {
        Renames.RenameEffect(t, o, oldSlug);
      }
    }
  }

  lemma RoleChangesDo(t: Tables, x: Worker, weather: Weather)
    requires weather.Clear? && x.task.ChangeRole?
    ensures Does(t, x, Effects(t, x, weather))
  {
    hide ApplyAll, AllHold, DistinctTargets, Submitting, RoleTransitions.RoleWrites;
    var c, witnessId := x.task.call, x.task.witnessId;
    RoleTransitions.CommitConditions(t, c, witnessId);
    Guarantees.SubmittingLeaves(t, RoleTransitions.RoleWrites(c, witnessId), weather);
    if Commits(t, RoleTransitions.RoleWrites(c, witnessId)) {
      RoleTransitions.CommittedTransition(t, c, witnessId);
    }
  }

  lemma KeyIdsAgree(t: Tables, id: string)
    requires Valid(t) && id in t.apiKeys
    ensures t.apiKeys[id].apiKey.id == id
  {
    hide SortKey, IdentityText, UsersOk, IdentitiesOk, OrganizationsOk, MembershipsOk, AuditsOk, SessionsOk, ReferencesHold;
  }

  lemma SingleUpdatesDo(t: Tables, x: Worker, weather: Weather)
    requires Valid(t) && weather.Clear? && !Guarantees.Adds(x.task) && !x.task.Update? && !x.task.ChangeRole?
    ensures Does(t, x, Effects(t, x, weather))
  {
    hide Valid, Submitting, WritesFor, Renames.RenameWrites, RoleTransitions.RoleWrites, Ownership.MemberWrites,
         Renames.KeptSlug;
    match x.task {
      case EndKey(id, _) => if id in t.apiKeys { KeyIdsAgree(t, id); }
      case SweepKey(id, _) => if id in t.apiKeys { KeyIdsAgree(t, id); }
      case Remove(pair) =>
        if pair !in t.memberships {
          assert t.memberships - {pair} == t.memberships;
        }
      case _ =>
    }
  }

  /** Every interaction in clear weather has the effect its call stands for; any other has none. */
  lemma InteractionsDo(t: Tables, x: Worker, weather: Weather)
    requires Valid(t) && WorkerOk(t, x)
    ensures if weather.Clear? then Does(t, x, Effects(t, x, weather)) else Effects(t, x, weather) == t
  {
    hide Valid, WorkerOk, Does, Renames.RenameWrites, RoleTransitions.RoleWrites, Ownership.MemberWrites, WritesFor,
         DistinctTargets, AllHold, ApplyAll, Reasons;
    if weather.Clear? {
      if Guarantees.Adds(x.task) {
        InsertsDo(t, x, weather);
      } else if x.task.Update? {
        UpdatesDo(t, x, weather);
      } else if x.task.ChangeRole? {
        RoleChangesDo(t, x, weather);
      } else {
        SingleUpdatesDo(t, x, weather);
      }
    }
  }

  /** A call reads first only if it grants or updates; its write is due again after contention, and else its last. */
  lemma CallsComeForward(t: Tables, x: Worker, weather: Weather)
    ensures var stage := StageAfter(t, x, weather);
            if x.stage.Ready? && x.task.Grant? then
              var org := x.task.membership.organizationId;
              stage.Finished? <==> org !in t.organizations
            else if x.stage.Ready? && x.task.Update? then
              stage.Updating?
              && (stage.plan.Missing? <==> x.task.organization.id !in t.organizations)
              && (stage.plan.ChangeSlug? <==>
                    x.task.organization.id in t.organizations
                    && t.organizations[x.task.organization.id].slug != x.task.organization.slug)
            else if weather in {Contended, Disturbed} then stage == x.stage
            else stage.Finished?
  {
  }

  // ----- users who come in are found -----

  /** All but the legacy users carry their role and are listed by role and by email. */
  ghost predicate IndexedBut(t: Tables, legacy: set<string>) {
    forall k | k in t.users && k !in legacy ::
      && t.users[k].role.Some? && t.users[k].gRole == t.users[k].role
      && t.users[k].gEmail == Some(t.users[k].email)
  }

  /** The write leaves no user without index attributes. */
  predicate IndexesUsers(w: Write) {
    w.PutUser? ==> w.user.role.Some? && w.user.gRole == w.user.role && w.user.gEmail == Some(w.user.email)
  }

  lemma WriteKeepsIndexed(t: Tables, w: Write, legacy: set<string>)
    requires IndexedBut(t, legacy) && IndexesUsers(w)
    ensures IndexedBut(Apply(t, w), legacy)
  {
  }

  lemma {:induction false} WritesKeepIndexed(t: Tables, ws: seq<Write>, legacy: set<string>)
    requires IndexedBut(t, legacy) && forall i | 0 <= i < |ws| :: IndexesUsers(ws[i])
    ensures IndexedBut(ApplyAll(t, ws), legacy)
  {
    hide IndexedBut, IndexesUsers, Apply;
    if ws != [] {
      WritesKeepIndexed(t, ws[..|ws| - 1], legacy);
      WriteKeepsIndexed(ApplyAll(t, ws[..|ws| - 1]), ws[|ws| - 1], legacy);
    }
  }

  lemma RowPutsIndex(t: Tables, row: Row)
    ensures forall i | 0 <= i < |PutsFor(t, row)| :: IndexesUsers(PutsFor(t, row)[i])
  {
    hide SortKey, IdentityText;
  }

  lemma {:induction false} BatchPutsIndex(t: Tables, rows: seq<Row>)
    ensures forall i | 0 <= i < |PutsForAll(t, rows)| :: IndexesUsers(PutsForAll(t, rows)[i])
  {
    hide IndexesUsers, PutsFor, ApplyAll;
    if rows != [] {
      var before := PutsForAll(t, rows[..|rows| - 1]);
      BatchPutsIndex(t, rows[..|rows| - 1]);
      RowPutsIndex(ApplyAll(t, before), rows[|rows| - 1]);
    }
  }

  lemma BatchIndexes(t: Tables, rows: seq<Row>, parents: seq<Parent>)
    ensures forall i | 0 <= i < |WritesFor(t, rows, parents)| :: IndexesUsers(WritesFor(t, rows, parents)[i])
  {
    hide PutsForAll;
    BatchPutsIndex(t, rows);
    ChecksAreListed(parents);
  }

  lemma SubmittingKeepsIndexed(t: Tables, ws: seq<Write>, weather: Weather, legacy: set<string>)
    requires IndexedBut(t, legacy) && forall i | 0 <= i < |ws| :: IndexesUsers(ws[i])
    ensures IndexedBut(Submitting(t, ws, weather), legacy)
  {
    hide IndexedBut, IndexesUsers, ApplyAll, Commits;
    Guarantees.SubmittingLeaves(t, ws, weather);
    WritesKeepIndexed(t, ws, legacy);
  }

  lemma EffectsKeepIndexed(t: Tables, x: Worker, weather: Weather, legacy: set<string>)
    requires Valid(t) && IndexedBut(t, legacy)
    ensures IndexedBut(Effects(t, x, weather), legacy)
  {
    hide Valid, Effects;
    if Guarantees.Adds(x.task) || x.task.ChangeRole? {
      SubmissionsKeepIndexed(t, x, weather, legacy);
    } else {
      Guarantees.TablesLeftAlone(t, x, weather);
      if x.task.EditUser? {
        Guarantees.EditsName(t, x, weather);
      }
    }
  }

  lemma SubmissionsKeepIndexed(t: Tables, x: Worker, weather: Weather, legacy: set<string>)
    requires IndexedBut(t, legacy) && (Guarantees.Adds(x.task) || x.task.ChangeRole?)
    ensures IndexedBut(Effects(t, x, weather), legacy)
  {
    hide IndexedBut, Submitting, WritesFor, SortKey;
    if x.task.Insert? {
      BatchIndexes(t, x.task.rows, x.task.parents);
      SubmittingKeepsIndexed(t, WritesFor(t, x.task.rows, x.task.parents), weather, legacy);
    } else if x.task.ChangeRole? {
      SubmittingKeepsIndexed(t, RoleTransitions.RoleWrites(x.task.call, x.task.witnessId), weather, legacy);
    } else if x.stage.Granting? {
      SubmittingKeepsIndexed(t, Ownership.MemberWrites(x.task.membership, x.stage.organizationCreatedAt), weather, legacy);
    }
  }

  /** Whatever interleaves, only users who were unlisted at the start can be unlisted later. */
  lemma {:induction false} NewcomersAreIndexed(states: seq<State>, moves: seq<Move>, n: nat, legacy: set<string>)
    requires IsHistory(states, moves) && Sound(states[0]) && n < |states|
    requires IndexedBut(states[0].tables, legacy)
    ensures IndexedBut(states[n].tables, legacy)
  {
    hide IndexedBut, Sound, Moves, Effects;
    if n > 0 {
      NewcomersAreIndexed(states, moves, n - 1, legacy);
      ReachableIsValid(states, moves, n - 1);
      MoveKeepsIndexed(states[n - 1], moves[n - 1], states[n], legacy);
    }
  }

  lemma MoveKeepsIndexed(w: State, move: Move, w': State, legacy: set<string>)
    requires Sound(w) && Moves(w, move, w') && IndexedBut(w.tables, legacy)
    ensures IndexedBut(w'.tables, legacy)
  {
    hide Valid, Effects, WorkerOk;
    if move.Act? {
      EffectsKeepIndexed(w.tables, w.workers[move.worker], move.weather, legacy);
    }
  }

  /** On a store begun without legacy users, the email index answers the scan at any time. */
  lemma EmailsAreFound(states: seq<State>, moves: seq<Move>, n: nat, email: string)
    requires IsHistory(states, moves) && Sound(states[0]) && n < |states| && states[0].tables.users == map[]
    ensures EmailMatches(states[n].tables, email) == set u | u in RowsOf(states[n].tables).users && u.email == email
  {
    hide Sound, Moves, Valid, RowsOf, EmailMatches;
    NewcomersAreIndexed(states, moves, n, {});
    assert Valid(states[n].tables) by { StateIsValid(states, moves, n); }
    EmailLookupIsScan(states[n].tables, email);
  }

  lemma StateIsValid(states: seq<State>, moves: seq<Move>, n: nat)
    requires IsHistory(states, moves) && Sound(states[0]) && n < |states|
    ensures Valid(states[n].tables)
  {
    hide Moves, Valid, Integrity;
    ReachableIsValid(states, moves, n);
  }
}
