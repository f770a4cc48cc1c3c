/**
 Granting and revoking the administrator role. The relational form is one serialized
 transaction; the key-value form reads, picks a witness from a possibly stale index, and
 commits conditionally, so many calls interleave. Every run keeps an active administrator,
 and every outcome is one the serialized form allows.
 */
module RoleTransitions {
  import opened Outcomes
  import opened Text
  import opened Timestamps
  import opened Domain
  import opened Keys
  import opened Relational
  import opened Items
  import opened Transactions
  import opened Batches

  const GRANT_ACTION := "user.application_role.granted"
  const REVOKE_ACTION := "user.application_role.revoked"

  /** The arguments of one transition_application_role call. */
  datatype Call = Call(userId: string, expected: ApplicationRole, role: ApplicationRole, at: UtcTime, audit: AuditEvent)

  datatype Outcome = Transitioned(user: User) | NoChange(user: User) | Refused(error: StorageError)

  function RoleText(role: ApplicationRole): string {
    if role.Admin? then "admin" else "user"
  }

  /** The call the administration service forms: one event, one clock reading, one id. */
  function FormCall(userId: string, grant: bool, anchor: string, now: UtcTime, auditId: string): Call {
    var (from, to) := if grant then (PlainUser, Admin) else (Admin, PlainUser);
    Call(userId, from, to, now,
         AuditEvent(auditId, anchor, userId, if grant then GRANT_ACTION else REVOKE_ACTION, Some(userId),
                    map["from_role" := RoleText(from), "to_role" := RoleText(to)], now))
  }

  predicate IsFormed(c: Call) {
    c == FormCall(c.userId, c.role == Admin, c.audit.organizationId, c.at, c.audit.id)
  }

  predicate IsDemotion(c: Call) {
    c.expected == Admin && c.role == PlainUser
  }

  // ----- the serialized form -----

  predicate OtherActiveAdmin(r: Rows, userId: string) {
    exists u :: u in r.users && u.role == Admin && u.status == Active && u.id != userId
  }

  /** UPDATE users SET application_role, updated_at WHERE id AND application_role. */
  function UpdateRole(r: Rows, c: Call): Rows {
    r.(users := set u | u in r.users ::
                  if u.id == c.userId && u.role == c.expected then u.(role := c.role, updatedAt := c.at) else u)
  }

  /** The SQLite transaction, given the stored row of the target. */
  function SerializedOn(r: Rows, stored: User, c: Call): (Outcome, Rows) {
    if stored.role == c.role then (NoChange(stored), r)
    else if IsDemotion(c) && stored.status == Active && !OtherActiveAdmin(r, c.userId) then
      (Refused(LastActiveAdministrator), r)
    else if stored.role != c.expected then (Refused(Failed), r)
    else
      match Insert(UpdateRole(r, c), AuditRow(c.audit))
      case Err(e) => (Refused(e), r)
      case Ok(after) => (Transitioned(stored.(role := c.role, updatedAt := c.at)), after)
  }

  ghost function Serialized(r: Rows, c: Call): (Outcome, Rows) {
    if u :| u in r.users && u.id == c.userId then SerializedOn(r, u, c) else (Refused(EntityNotFound), r)
  }

  /** A transition changes a user who had the expected role to the role asked for, and adds its event. */
  lemma TransitionsChangeTheExpectedRole(r: Rows, c: Call)
    requires Serialized(r, c).0.Transitioned?
    ensures exists u :: u in r.users && u.id == c.userId && u.role == c.expected != c.role
                   && Serialized(r, c).0.user == u.(role := c.role, updatedAt := c.at)
    ensures Serialized(r, c).1.audits == r.audits + {c.audit} && c.audit !in r.audits
  {
    var u :| u in r.users && u.id == c.userId && Serialized(r, c) == SerializedOn(r, u, c);
  }

  // ----- the optimistic form, one storage interaction per step -----

  datatype Phase =
    | Reading
    | Guarding
    | Writing(pinned: Option<string>)
    | Resolving
    | ReadingBack
    | Finished(outcome: Outcome)

  datatype Client = Client(call: Call, attempts: nat, phase: Phase)

  /** log lists the audit events of committed transitions in commit order. */
  datatype World = World(tables: Tables, clients: map<nat, Client>, log: seq<AuditEvent>)

  datatype Step =
    | Begin(client: nat, call: Call)
    | Read(client: nat)
    | Query(client: nat, answer: seq<UserItem>)
    | Submit(client: nat, weather: Weather)
    | Resolve(client: nat)
    | ReadBack(client: nat)
    | Elsewhere

  function RoleWrites(c: Call, pinned: Option<string>): seq<Write> {
    (if pinned.Some? then [RequireActiveAdmin(pinned.value)] else [])
    + [SetRole(c.userId, c.expected, c.role, c.at), PutAudit(c.audit), RequireOrganization(c.audit.organizationId)]
  }

  function RoleConflicts(pinned: Option<string>): seq<Conflict> {
    (if pinned.Some? then [LastAdminConflict] else [])
    + [RoleCasConflict, DuplicateConflict(EntityId), ReferenceConflict]
  }

  /** The first step of an attempt: one consistent read of the target. */
  function AfterRead(t: Tables, c: Call): Phase {
    if c.userId !in t.users then Finished(Refused(EntityNotFound))
    else
      var stored := FromUserItem(t.users[c.userId]);
      if stored.role == c.role then Finished(NoChange(stored))
      else if IsDemotion(c) && stored.status == Active then Guarding
      else Writing(None)
  }

  /** The other active admins an index answer lists; the target never props itself up. */
  function Others(answer: seq<UserItem>, userId: string): seq<UserItem> {
    if answer == [] then []
    else
      var last := answer[|answer| - 1];
      Others(answer[..|answer| - 1], userId)
      + if last.gRole == Some(Admin) && last.status == Active && last.id != userId then [last] else []
  }

  predicate OlderUser(a: UserItem, b: UserItem) {
    Earlier(a.createdAt, b.createdAt) || (a.createdAt == b.createdAt && Before(a.id, b.id))
  }

  /** The earliest of them by (created_at, id). */
  function Earliest(users: seq<UserItem>): (u: UserItem)
    requires users != []
    ensures u in users
  {
    if |users| == 1 then users[0]
    else
      var rest := Earliest(users[1..]);
      if OlderUser(rest, users[0]) then rest else users[0]
  }

  lemma OlderUserIsKeyOrder(a: UserItem, b: UserItem)
    ensures OlderUser(a, b) <==> Before(SortKey(a.createdAt, a.id), SortKey(b.createdAt, b.id))
  {
    SortKeyOrder(a.createdAt, a.id, b.createdAt, b.id);
  }

  /** Nobody in the answer is older than the witness, so the answer's order does not matter. */
  lemma {:induction false} EarliestIsOldest(users: seq<UserItem>)
    requires users != []
    ensures forall v | v in users :: !OlderUser(v, Earliest(users))
  {
    hide OlderUser, SortKey;
    forall a, b ensures OlderUser(a, b) <==> Before(SortKey(a.createdAt, a.id), SortKey(b.createdAt, b.id)) {
      OlderUserIsKeyOrder(a, b);
    }
    var first := users[0];
    BeforeIsIrreflexive(SortKey(first.createdAt, first.id));
    if |users| > 1 {
      EarliestIsOldest(users[1..]);
      var rest := Earliest(users[1..]);
      forall v | v in users ensures !OlderUser(v, Earliest(users)) {
        assert v == first || v in users[1..];
        StillOldest(v, rest, first);
      }
    }
  }

  lemma StillOldest(v: UserItem, rest: UserItem, first: UserItem)
    ensures !OlderUser(v, rest) && !OlderUser(rest, first) ==> !OlderUser(v, first)
    ensures !(OlderUser(rest, first) && OlderUser(first, rest))
  {
    OlderUserIsKeyOrder(v, rest);
    OlderUserIsKeyOrder(rest, first);
    OlderUserIsKeyOrder(first, rest);
    OlderUserIsKeyOrder(v, first);
    var x, y, z := SortKey(v.createdAt, v.id), SortKey(rest.createdAt, rest.id), SortKey(first.createdAt, first.id);
    BeforeIsTotal(x, y);
    if Before(x, z) && Before(y, x) {
      BeforeIsTransitive(y, x, z);
    }
    if Before(y, z) && Before(z, y) {
      BeforeIsTransitive(y, z, y);
    }
    BeforeIsIrreflexive(y);
  }

  function AfterQuery(c: Call, answer: seq<UserItem>): Phase {
    var others := Others(answer, c.userId);
    if others == [] then Finished(Refused(LastActiveAdministrator)) else Writing(Some(Earliest(others).id))
  }

  function AfterVerdict(attempts: nat, verdict: Option<Verdict>): Phase {
    match verdict
    case None => ReadingBack
    case Some(Retry) => if attempts + 1 < MAX_TRANSACTION_ATTEMPTS then Reading else Finished(Refused(Failed))
    case Some(RoleCasMiss) => Resolving
    case Some(Fail(e)) => Finished(Refused(e))
  }

  function AfterResolve(t: Tables, c: Call): Phase {
    if c.userId !in t.users then Finished(Refused(EntityNotFound))
    else
      var raced := FromUserItem(t.users[c.userId]);
      Finished(if raced.role == c.role then NoChange(raced) else Refused(Failed))
  }

  function AfterReadBack(t: Tables, c: Call): Phase {
    Finished(if c.userId in t.users then Transitioned(FromUserItem(t.users[c.userId])) else Refused(Failed))
  }

  function Moved(w: World, client: nat, phase: Phase): World
    requires client in w.clients
  {
    w.(clients := w.clients[client := w.clients[client].(phase := phase)])
  }

  /** Anything else the system does: users keep their role and status, and none disappears. */
  ghost predicate LeavesRolesAlone(t: Tables, t': Tables) {
    && Valid(t')
    && forall k | k in t.users ::
         && k in t'.users
         && t'.users[k].role == t.users[k].role && t'.users[k].gRole == t.users[k].gRole
         && t'.users[k].status == t.users[k].status
  }

  ghost predicate Next(w: World, step: Step, w': World) {
    match step
    case Begin(i, c) =>
      i !in w.clients && IsFormed(c) && w' == w.(clients := w.clients[i := Client(c, 0, Reading)])
    case Read(i) =>
      && i in w.clients && w.clients[i].phase.Reading?
      && w' == Moved(w, i, AfterRead(w.tables, w.clients[i].call))
    case Query(i, answer) =>
      && i in w.clients && w.clients[i].phase.Guarding?
      && w' == Moved(w, i, AfterQuery(w.clients[i].call, answer))
    case Submit(i, weather) =>
      && i in w.clients && w.clients[i].phase.Writing?
      && Submitted(w, i, Attempt(w.tables, weather), w')
    case Resolve(i) =>
      && i in w.clients && w.clients[i].phase.Resolving?
      && w' == Moved(w, i, AfterResolve(w.tables, w.clients[i].call))
    case ReadBack(i) =>
      && i in w.clients && w.clients[i].phase.ReadingBack?
      && w' == Moved(w, i, AfterReadBack(w.tables, w.clients[i].call))
    case Elsewhere =>
      LeavesRolesAlone(w.tables, w'.tables) && w' == w.(tables := w'.tables)
  }

  ghost predicate Submitted(w: World, i: nat, a: Attempt, w': World)
    requires i in w.clients && w.clients[i].phase.Writing?
  {
    var client := w.clients[i];
    var ws := RoleWrites(client.call, client.phase.pinned);
    var verdict := Judge(a, ws, RoleConflicts(client.phase.pinned));
    w' == World(ItemsAfter(a, ws),
                w.clients[i := Client(client.call, client.attempts + 1, AfterVerdict(client.attempts, verdict))],
                if verdict.None? then w.log + [client.call.audit] else w.log)
  }

  // ----- invariants -----

  predicate IsActiveUser(t: Tables, id: string) {
    id in t.users && t.users[id].status == Active
  }

  /** What a client knows once it is about to write, and that it has an attempt left to do so. */
  ghost predicate ClientOk(t: Tables, client: Client) {
    && IsFormed(client.call)
    && client.attempts <= MAX_TRANSACTION_ATTEMPTS
    && (client.phase.Reading? || client.phase.Guarding? || client.phase.Writing? ==> client.attempts < MAX_TRANSACTION_ATTEMPTS)
    && (client.phase.Guarding? ==> IsDemotion(client.call) && IsActiveUser(t, client.call.userId))
    && (client.phase.ReadingBack? ==> client.call.userId in t.users)
    && (client.phase.Writing? ==>
          match client.phase.pinned
          case Some(pinned) => pinned != client.call.userId
          case None => IsDemotion(client.call) ==>
                         client.call.userId in t.users && t.users[client.call.userId].status == Disabled)
  }

  ghost predicate Inv(w: World) {
    Valid(w.tables) && forall i | i in w.clients :: ClientOk(w.tables, w.clients[i])
  }

  predicate IsActiveAdmin(t: Tables, id: string) {
    id in t.users && t.users[id].role == Some(Admin) && t.users[id].status == Active
  }

  predicate HasActiveAdmin(t: Tables) {
    exists k :: k in t.users && IsActiveAdmin(t, k)
  }

  lemma OthersAreOthers(answer: seq<UserItem>, userId: string)
    ensures forall u | u in Others(answer, userId) ::
              u in answer && u.id != userId && u.gRole == Some(Admin) && u.status == Active
    ensures forall u | u in answer && u.id != userId && u.gRole == Some(Admin) && u.status == Active ::
              u in Others(answer, userId)
  {
    if answer != [] {
      OthersAreOthers(answer[..|answer| - 1], userId);
      assert answer == answer[..|answer| - 1] + [answer[|answer| - 1]];
    }
  }

  /** What a committed transition leaves. */
  function Transition(t: Tables, c: Call): Tables
    requires c.userId in t.users
  {
    var item := t.users[c.userId].(role := Some(c.role), gRole := Some(c.role), updatedAt := c.at);
    t.(users := t.users[c.userId := item], audits := t.audits[c.audit.id := c.audit])
  }

  /** The conditions a role transaction checks, spelled out. */
  lemma CommitConditions(t: Tables, c: Call, pinned: Option<string>)
    ensures DistinctTargets(RoleWrites(c, pinned)) <==> pinned != Some(c.userId)
    ensures AllHold(t, RoleWrites(c, pinned)) <==>
              && c.userId in t.users && t.users[c.userId].role == Some(c.expected)
              && c.audit.id !in t.audits && c.audit.organizationId in t.organizations
              && (pinned.Some? ==> IsActiveAdmin(t, pinned.value))
  {
    var ws := RoleWrites(c, pinned);
    var n := |ws| - 3;
    assert ws[n] == SetRole(c.userId, c.expected, c.role, c.at) && ws[n + 1] == PutAudit(c.audit);
    assert ws[n + 2] == RequireOrganization(c.audit.organizationId);
    assert pinned.Some? ==> n == 1 && ws[0] == RequireActiveAdmin(pinned.value);
  }

  /** The whole effect of a committed transition. */
  lemma CommittedTransition(t: Tables, c: Call, pinned: Option<string>)
    requires Commits(t, RoleWrites(c, pinned))
    ensures c.userId in t.users && t.users[c.userId].role == Some(c.expected)
    ensures c.audit.id !in t.audits && c.audit.organizationId in t.organizations
    ensures pinned.Some? ==> pinned.value != c.userId && IsActiveAdmin(t, pinned.value)
    ensures ApplyAll(t, RoleWrites(c, pinned)) == Transition(t, c)
  {
    hide AllHold, DistinctTargets, ApplyAll, Transition;
    CommitConditions(t, c, pinned);
    RoleEffect(t, c);
    if pinned.Some? {
      var check, core := RequireActiveAdmin(pinned.value), RoleWrites(c, None);
      OneStep(t, check);
      assert RoleWrites(c, pinned) == [check] + core;
      ApplyAllAppends(t, [check], core);
    }
  }

  lemma RoleEffect(t: Tables, c: Call)
    requires c.userId in t.users
    ensures ApplyAll(t, RoleWrites(c, None)) == Transition(t, c)
  {
    hide ApplyAll;
    var core := RoleWrites(c, None);
    assert core == core[..2] + core[2..] && core[..2] == [core[0], core[1]] && core[2..] == [core[2]];
    TwoSteps(t, core[0], core[1]);
    ApplyAllAppends(t, core[..2], core[2..]);
    OneStep(ApplyAll(t, core[..2]), core[2]);
  }

  lemma TransitionKeepsValid(t: Tables, c: Call)
    requires Valid(t) && c.userId in t.users && c.audit.organizationId in t.organizations
    ensures Valid(Transition(t, c))
  {
    hide SortKey, IdentityText, IdentitiesOk, OrganizationsOk, MembershipsOk, ApiKeysOk;
  }

  /** Nothing a client knows is lost while users stay with their status. */
  lemma ClientStays(t: Tables, t': Tables, client: Client)
    requires ClientOk(t, client)
    requires forall k | k in t.users :: k in t'.users && t'.users[k].status == t.users[k].status
    ensures ClientOk(t', client)
  {
    hide IsFormed;
  }

  /** The phase a client moves on to suits what it has read. */
  lemma MovesOn(t: Tables, client: Client, phase: Phase)
    requires ClientOk(t, client)
    requires (client.phase.Reading? && phase == AfterRead(t, client.call))
             || (client.phase.Guarding? && exists answer :: phase == AfterQuery(client.call, answer))
             || phase == AfterResolve(t, client.call) || phase == AfterReadBack(t, client.call)
    ensures ClientOk(t, client.(phase := phase))
  {
    if client.phase.Guarding? && phase.Writing? {
      var answer :| phase == AfterQuery(client.call, answer);
      OthersAreOthers(answer, client.call.userId);
    }
  }

  lemma VerdictMovesOn(t: Tables, client: Client, verdict: Option<Verdict>)
    requires ClientOk(t, client) && client.phase.Writing? && (verdict.None? ==> client.call.userId in t.users)
    ensures ClientOk(t, Client(client.call, client.attempts + 1, AfterVerdict(client.attempts, verdict)))
  {
    hide IsFormed;
  }

  lemma SubmitKeepsInv(w: World, i: nat, weather: Weather, w': World)
    requires Inv(w) && i in w.clients && w.clients[i].phase.Writing? && Submitted(w, i, Attempt(w.tables, weather), w')
    ensures Inv(w')
  {
    hide Valid, ClientOk, AfterVerdict, RoleWrites, RoleConflicts;
    var client := w.clients[i];
    var ws, conflicts := RoleWrites(client.call, client.phase.pinned), RoleConflicts(client.phase.pinned);
    RolesAlign(client.call, client.phase.pinned);
    if Respond(Attempt(w.tables, weather), ws).Committed? {
      CommittedTransition(w.tables, client.call, client.phase.pinned);
      TransitionKeepsValid(w.tables, client.call);
    }
    VerdictMovesOn(w.tables, client, Judge(Attempt(w.tables, weather), ws, conflicts));
    forall j | j in w'.clients ensures ClientOk(w'.tables, w'.clients[j]) {
      ClientStays(w.tables, w'.tables, w'.clients[j]);
    }
  }

  lemma RolesAlign(c: Call, pinned: Option<string>)
    ensures |RoleWrites(c, pinned)| == |RoleConflicts(pinned)| > 0
  {
  }

  /** Every step keeps the invariant. */
  lemma NextKeepsInv(w: World, step: Step, w': World)
    requires Inv(w) && Next(w, step, w')
    ensures Inv(w')
  {
    hide Valid, ClientOk, Submitted, IsFormed, AfterRead, AfterQuery, AfterResolve, AfterReadBack;
    match step {
      case Begin(i, c) => assert ClientOk(w.tables, Client(c, 0, Reading)) by { BeginsOk(w.tables, c); }
      case Read(i) => MovesOn(w.tables, w.clients[i], w'.clients[i].phase);
      case Query(i, answer) => MovesOn(w.tables, w.clients[i], w'.clients[i].phase);
      case Submit(i, weather) => SubmitKeepsInv(w, i, weather, w');
      case Resolve(i) => MovesOn(w.tables, w.clients[i], w'.clients[i].phase);
      case ReadBack(i) => MovesOn(w.tables, w.clients[i], w'.clients[i].phase);
      case Elsewhere =>
        forall j | j in w.clients ensures ClientOk(w'.tables, w.clients[j]) {
          ClientStays(w.tables, w'.tables, w.clients[j]);
        }
    }
  }

  lemma BeginsOk(t: Tables, c: Call)
    requires IsFormed(c)
    ensures ClientOk(t, Client(c, 0, Reading))
  {
  }

  lemma CommitKeepsActiveAdmin(t: Tables, client: Client, k: string)
    requires ClientOk(t, client) && client.phase.Writing? && IsActiveAdmin(t, k)
    requires Commits(t, RoleWrites(client.call, client.phase.pinned))
    ensures HasActiveAdmin(ApplyAll(t, RoleWrites(client.call, client.phase.pinned)))
  {
    hide Commits, ApplyAll, RoleWrites;
    var c, pinned := client.call, client.phase.pinned;
    CommittedTransition(t, c, pinned);
    var survivor := if c.role == Admin || k != c.userId then k else pinned.GetOr(k);
    assert IsActiveAdmin(Transition(t, c), survivor);
  }

  /**
   No step removes the last active administrator, however stale the index answers behind
   the guards of pending demotions are: the witness is checked at commit.
   */
  lemma NextKeepsActiveAdmin(w: World, step: Step, w': World)
    requires Inv(w) && Next(w, step, w') && HasActiveAdmin(w.tables)
    ensures HasActiveAdmin(w'.tables)
  {
    hide Valid, ApplyAll, RoleWrites, RoleConflicts, ClientOk, Judge;
    var k :| k in w.tables.users && IsActiveAdmin(w.tables, k);
    match step {
      case Submit(i, weather) =>
        if Respond(Attempt(w.tables, weather), RoleWrites(w.clients[i].call, w.clients[i].phase.pinned)).Committed? {
          CommitKeepsActiveAdmin(w.tables, w.clients[i], k);
        }
      case Elsewhere => assert IsActiveAdmin(w'.tables, k);
      case _ => assert w'.tables == w.tables;
    }
  }

  /** A run may start on any valid store with no call under way. */
  lemma QuietStart(t: Tables)
    requires Valid(t)
    ensures Inv(World(t, map[], []))
  {
    hide Valid;
  }

  // ----- runs -----

  ghost predicate IsRun(run: seq<World>, steps: seq<Step>) {
    && |run| == |steps| + 1
    && forall n | 0 <= n < |steps| :: Next(run[n], steps[n], run[n + 1])
  }

  lemma {:induction false} RunKeepsInv(run: seq<World>, steps: seq<Step>, n: nat)
    requires IsRun(run, steps) && Inv(run[0]) && n < |run|
    ensures Inv(run[n])
  {
    hide Next, Inv;
    if n > 0 {
      RunKeepsInv(run, steps, n - 1);
      NextKeepsInv(run[n - 1], steps[n - 1], run[n]);
    }
  }

  /**
   Last-administrator safety: once there is an active administrator, no interleaving of any
   number of grants and revocations reaches a state without one.
   */
  lemma {:induction false} AlwaysAnActiveAdmin(run: seq<World>, steps: seq<Step>, start: nat, n: nat)
    requires IsRun(run, steps) && Inv(run[0]) && start <= n < |run| && HasActiveAdmin(run[start].tables)
    ensures HasActiveAdmin(run[n].tables)
  {
    hide Next, Inv, HasActiveAdmin;
    if start < n {
      AlwaysAnActiveAdmin(run, steps, start, n - 1);
      RunKeepsInv(run, steps, n - 1);
      NextKeepsActiveAdmin(run[n - 1], steps[n - 1], run[n]);
    }
  }
}
