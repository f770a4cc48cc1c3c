/**
 Runs of concurrent first logins. Whatever the interleaving, one subject gets at most one
 account, every call that returns names that account's user, and no call reports a
 provisioning conflict.
 */
module Convergence {
  import opened Outcomes
  import opened Timestamps
  import opened Domain
  import opened Keys
  import opened Relational
  import opened Items
  import opened Transactions
  import opened Refinement
  import opened BatchWrites
  import opened Provisioning

  datatype LoginError = DisabledUser | ProvisioningConflict | Storage(error: StorageError)

  datatype Phase =
    | LookingUp
    | Fetching(owner: string)
    | Provisioning
    | ResolvingWinner
    | Rechecking(winner: Option<string>)
    | RecheckFetching(winner: Option<string>, owner: string)
    | Returned(user: User)
    | Raised(error: LoginError)

  /** One resolve_user call, with the ids it mints should it come to provisioning. */
  datatype Login = Login(profile: Profile, now: UtcTime, ids: Ids, attempts: nat, phase: Phase) {
    function Batch(): UserBatch {
      BuildBatch(profile, now, ids)
    }
  }

  /** created lists the accounts committed by first logins, in commit order. */
  datatype World = World(tables: Tables, logins: map<nat, Login>, created: seq<UserBatch>)

  datatype Step =
    | Begin(login: nat, profile: Profile, now: UtcTime, ids: Ids)
    | Find(login: nat)
    | Fetch(login: nat)
    | Submit(login: nat, weather: Weather)
    | Resolve(login: nat)
    | Elsewhere

  function SubjectKey(subject: string): ConstraintKey {
    IdentityKey(IdentityText(Cognito, subject, None))
  }

  // ----- the program of one call -----

  /** A user that is not active is never handed out. */
  function Hand(user: User): Phase {
    if user.status == Active then Returned(user) else Raised(DisabledUser)
  }

  /** Constraint read of the first lookup, and of the re-read after a lost race. */
  function AfterFind(t: Tables, l: Login): Phase
    requires l.phase.LookingUp? || l.phase.Rechecking?
  {
    var key := SubjectKey(l.profile.subject);
    if key !in t.constraints then
      if l.phase.LookingUp? then Provisioning else Raised(ProvisioningConflict)
    else
      match t.constraints[key].userId
      case None => Raised(Storage(Failed))
      case Some(owner) => if l.phase.LookingUp? then Fetching(owner) else RecheckFetching(l.phase.winner, owner)
  }

  /** User read behind the constraint; a re-read cross-checks the winner the adapter named. */
  function AfterFetch(t: Tables, l: Login): Phase
    requires l.phase.Fetching? || l.phase.RecheckFetching?
  {
    var owner := l.phase.owner;
    if owner !in t.users then
      if l.phase.Fetching? then Provisioning else Raised(ProvisioningConflict)
    else
      var user := FromUserItem(t.users[owner]);
      if l.phase.RecheckFetching? && l.phase.winner.Some? && l.phase.winner.value != user.id
      then Raised(ProvisioningConflict)
      else Hand(user)
  }

  function AfterSubmit(l: Login, verdict: Option<Verdict>): Phase {
    match verdict
    case None => Hand(l.Batch().user)
    case Some(Retry) => if l.attempts + 1 < MAX_TRANSACTION_ATTEMPTS then Provisioning else Raised(Storage(Failed))
    case Some(RoleCasMiss) => Raised(Storage(Failed))
    case Some(Fail(e)) => if e.IdentityRace? then ResolvingWinner else Raised(Storage(e))
  }

  function AfterResolve(t: Tables, l: Login): Phase {
    var key := SubjectKey(l.profile.subject);
    Rechecking(if key in t.constraints then t.constraints[key].userId else None)
  }

  // ----- freshly minted ids -----

  /** The items a login's batch creates, apart from the identity constraint it races on. */
  function OwnTargets(b: UserBatch): set<Target>
    requires |b.audits| == 3
  {
    {UserAt(b.user.id), IdentityAt(b.identity.id), OrganizationAt(b.organization.id),
     ConstraintAt(SlugKey(b.organization.slug)), MembershipAt(PairOf(b.membership)),
     ConstraintAt(MembershipIdKey(b.membership.id)),
     AuditAt(b.audits[0].id), AuditAt(b.audits[1].id), AuditAt(b.audits[2].id)}
  }

  ghost predicate Fresh(t: Tables, b: UserBatch)
    requires |b.audits| == 3
  {
    forall x | x in OwnTargets(b) :: Lookup(t, x).None?
  }

  predicate DistinctIds(ids: Ids) {
    && ids.userAudit != ids.organizationAudit && ids.userAudit != ids.membershipAudit
    && ids.organizationAudit != ids.membershipAudit
  }

  ghost predicate Minted(w: World, b: UserBatch)
    requires |b.audits| == 3
  {
    Fresh(w.tables, b) && forall i | i in w.logins :: OwnTargets(w.logins[i].Batch()) !! OwnTargets(b)
  }

  predicate Done(l: Login) {
    l.phase.Returned? || l.phase.Raised?
  }

  // ----- steps -----

  function Moved(w: World, i: nat, phase: Phase): World
    requires i in w.logins
  {
    w.(logins := w.logins[i := w.logins[i].(phase := phase)])
  }

  /** Identities stay what they are, and users stay with their status. */
  ghost predicate Extends(t: Tables, t': Tables) {
    && (forall c | c in t.constraints && c.IdentityKey? :: c in t'.constraints && t'.constraints[c] == t.constraints[c])
    && (forall k | k in t.users :: k in t'.users && t'.users[k].status == t.users[k].status)
  }

  /** Everything else: identities and users stay, and nobody uses ids minted here. */
  ghost predicate LeavesLoginsAlone(w: World, t': Tables) {
    && Valid(t')
    && Extends(w.tables, t')
    && (forall i | i in w.logins && Fresh(w.tables, w.logins[i].Batch()) :: Fresh(t', w.logins[i].Batch()))
  }

  ghost predicate Submitted(w: World, i: nat, weather: Weather, w': World)
    requires i in w.logins && w.logins[i].phase.Provisioning?
  {
    var l, a := w.logins[i], Attempt(w.tables, weather);
    var b := l.Batch();
    var verdict := Judge(a, LoginWrites(b), LoginConflicts());
    w' == World(ItemsAfter(a, LoginWrites(b)),
                w.logins[i := l.(attempts := l.attempts + 1, phase := AfterSubmit(l, verdict))],
                if verdict.None? then w.created + [b] else w.created)
  }

  ghost predicate Next(w: World, step: Step, w': World) {
    match step
    case Begin(i, profile, now, ids) =>
      && i !in w.logins && DistinctIds(ids) && Minted(w, BuildBatch(profile, now, ids))
      && w' == w.(logins := w.logins[i := Login(profile, now, ids, 0, LookingUp)])
    case Find(i) =>
      && i in w.logins && (w.logins[i].phase.LookingUp? || w.logins[i].phase.Rechecking?)
      && w' == Moved(w, i, AfterFind(w.tables, w.logins[i]))
    case Fetch(i) =>
      && i in w.logins && (w.logins[i].phase.Fetching? || w.logins[i].phase.RecheckFetching?)
      && w' == Moved(w, i, AfterFetch(w.tables, w.logins[i]))
    case Submit(i, weather) =>
      i in w.logins && w.logins[i].phase.Provisioning? && Submitted(w, i, weather, w')
    case Resolve(i) =>
      && i in w.logins && w.logins[i].phase.ResolvingWinner?
      && w' == Moved(w, i, AfterResolve(w.tables, w.logins[i]))
    case Elsewhere =>
      LeavesLoginsAlone(w, w'.tables) && w' == w.(tables := w'.tables)
  }

  // ----- invariant -----

  /** The identity index names this user as the subject's. */
  predicate Owns(t: Tables, subject: string, user: string) {
    var key := SubjectKey(subject);
    key in t.constraints && t.constraints[key].userId == Some(user)
  }

  ghost predicate LoginOk(t: Tables, l: Login) {
    var subject := l.profile.subject;
    && DistinctIds(l.ids)
    && l.attempts <= MAX_TRANSACTION_ATTEMPTS
    && (l.phase.LookingUp? || l.phase.Fetching? || l.phase.Provisioning? ==> l.attempts < MAX_TRANSACTION_ATTEMPTS)
    && (!Done(l) ==> Fresh(t, l.Batch()))
    && match l.phase
       case LookingUp => true
       case Fetching(owner) => Owns(t, subject, owner)
       case Provisioning => true
       case ResolvingWinner => SubjectKey(subject) in t.constraints
       case Rechecking(winner) => winner.Some? && Owns(t, subject, winner.value)
       case RecheckFetching(winner, owner) => winner == Some(owner) && Owns(t, subject, owner)
       case Returned(user) => Owns(t, subject, user.id) && user.id in t.users && t.users[user.id].status == Active
       case Raised(DisabledUser) =>
         exists k :: k in t.users && Owns(t, subject, k) && t.users[k].status == Disabled
       case Raised(e) => e == Storage(Failed)
  }

  ghost predicate CreatedOk(t: Tables, b: UserBatch) {
    && b.identity.provider == Cognito && b.identity.tenant == None
    && Owns(t, b.identity.subject, b.user.id)
    && b.user.id in t.users && t.users[b.user.id].status == Active
  }

  ghost predicate OnePerSubject(created: seq<UserBatch>) {
    forall m, n | 0 <= m < n < |created| ::
      created[m].identity.subject != created[n].identity.subject && created[m].user.id != created[n].user.id
  }

  ghost predicate LoginsOk(t: Tables, logins: map<nat, Login>) {
    forall i | i in logins :: LoginOk(t, logins[i])
  }

  ghost predicate IdsApart(logins: map<nat, Login>) {
    forall i, j | i in logins && j in logins && i != j ::
      OwnTargets(logins[i].Batch()) !! OwnTargets(logins[j].Batch())
  }

  ghost predicate AccountsOk(t: Tables, created: seq<UserBatch>) {
    forall n | 0 <= n < |created| :: CreatedOk(t, created[n])
  }

  ghost predicate Inv(w: World) {
    && Valid(w.tables)
    && LoginsOk(w.tables, w.logins)
    && IdsApart(w.logins)
    && AccountsOk(w.tables, w.created)
    && OnePerSubject(w.created)
  }

  // ----- the commit -----

  lemma LoginTargets(b: UserBatch, n: nat)
    requires |b.audits| == 3 && n < 10
    ensures n != RACE_POSITION ==> TargetOf(LoginWrites(b)[n]) in OwnTargets(b)
    ensures n == RACE_POSITION ==> TargetOf(LoginWrites(b)[n]) == ConstraintAt(IdentityKeyOf(b.identity))
  {
    hide SortKey, IdentityText;
  }

  /** A fresh batch is obstructed by the identity constraint alone. */
  lemma OnlyTheRaceFails(t: Tables, l: Login)
    requires Fresh(t, l.Batch()) && DistinctIds(l.ids)
    ensures var ws, key := LoginWrites(l.Batch()), SubjectKey(l.profile.subject);
            && DistinctTargets(ws)
            && (AllHold(t, ws) <==> key !in t.constraints)
            && (key in t.constraints ==> Blamed(t, ws) == RACE_POSITION)
  {
    hide SortKey, IdentityText, OwnTargets;
    var b := l.Batch();
    var ws := LoginWrites(b);
    forall n: nat | n < 10
      ensures n != RACE_POSITION ==> Holds(t, ws[n])
      ensures n == RACE_POSITION ==> (Holds(t, ws[n]) <==> SubjectKey(l.profile.subject) !in t.constraints)
    {
      LoginTargets(b, n);
      PutFillsItsTarget(t, ws[n]);
    }
    LoginTargetsDiffer(b);
    if SubjectKey(l.profile.subject) in t.constraints {
      assert !Holds(t, ws[RACE_POSITION]);
      assert FirstFailure(t, ws, Blamed(t, ws));
    }
  }

  lemma LoginTargetsDiffer(b: UserBatch)
    requires |b.audits| == 3
    requires b.audits[0].id != b.audits[1].id && b.audits[0].id != b.audits[2].id && b.audits[1].id != b.audits[2].id
    ensures DistinctTargets(LoginWrites(b))
  {
    hide SortKey, IdentityText;
  }

  /** The account one committed first login leaves: exactly the batch's rows. */
  lemma LoginCommit(t: Tables, l: Login)
    requires Valid(t) && Commits(t, LoginWrites(l.Batch()))
    ensures var t' := ApplyAll(t, LoginWrites(l.Batch()));
            Valid(t') && RowsOf(t') == PlusAll(RowsOf(t), UserBatchRows(l.Batch()))
  {
    hide Valid, Commits, RowsOf, LoginWrites;
    var rows := UserBatchRows(l.Batch());
    LoginWritesAreTheBatch(t, l.profile, l.now, l.ids);
    BatchAddsItsRows(t, rows, []);
    InsertAllAddsAll(RowsOf(t), rows);
  }

  lemma LoginCommitItems(t: Tables, l: Login)
    requires DistinctIds(l.ids)
    ensures var t' := ApplyAll(t, LoginWrites(l.Batch()));
            && Lookup(t', UserAt(l.ids.user)) == Some(UserCell(ToUserItem(l.Batch().user)))
            && Lookup(t', ConstraintAt(SubjectKey(l.profile.subject)))
               == Some(ConstraintCell(ConstraintItem(l.ids.identity, Some(l.ids.user))))
  {
    hide SortKey, IdentityText, ApplyAll, OwnTargets, DistinctTargets;
    LoginTargetsDiffer(l.Batch());
    WrittenItems(t, LoginWrites(l.Batch()), 0);
    WrittenItems(t, LoginWrites(l.Batch()), RACE_POSITION);
  }

  lemma LoginCommitElsewhere(t: Tables, b: UserBatch, x: Target)
    requires |b.audits| == 3 && x !in OwnTargets(b) && x != ConstraintAt(IdentityKeyOf(b.identity))
    ensures Lookup(ApplyAll(t, LoginWrites(b)), x) == Lookup(t, x)
  {
    hide OwnTargets, Lookup, ApplyAll, TargetOf, IdentityText, LoginWrites;
    var ws := LoginWrites(b);
    assert |ws| == 10 by { LoginHasTenPuts(b); }
    forall n | 0 <= n < |ws| ensures TargetOf(ws[n]) != x {
      LoginTargets(b, n);
    }
    UntouchedItems(t, ws, x);
  }

  lemma LoginHasTenPuts(b: UserBatch)
    requires |b.audits| == 3
    ensures |LoginWrites(b)| == 10
  {
  }

  // ----- every step keeps the invariant -----

  lemma LoginOkStays(t: Tables, t': Tables, l: Login)
    requires LoginOk(t, l) && Extends(t, t') && (Fresh(t, l.Batch()) ==> Fresh(t', l.Batch()))
    ensures LoginOk(t', l)
  {
    hide Fresh, IdentityText;
  }

  lemma CommitExtends(t: Tables, l: Login)
    requires Fresh(t, l.Batch()) && DistinctIds(l.ids) && SubjectKey(l.profile.subject) !in t.constraints
    ensures Extends(t, ApplyAll(t, LoginWrites(l.Batch())))
  {
    hide ApplyAll, LoginWrites, IdentityText;
    var b := l.Batch();
    var t' := ApplyAll(t, LoginWrites(b));
    forall c | c in t.constraints && c.IdentityKey?
      ensures c in t'.constraints && t'.constraints[c] == t.constraints[c]
    {
      LoginCommitElsewhere(t, b, ConstraintAt(c));
      assert Lookup(t', ConstraintAt(c)) == Lookup(t, ConstraintAt(c));
    }
    forall k | k in t.users
      ensures k in t'.users && t'.users[k].status == t.users[k].status
    {
      assert Lookup(t, UserAt(b.user.id)).None?;
      LoginCommitElsewhere(t, b, UserAt(k));
      assert Lookup(t', UserAt(k)) == Lookup(t, UserAt(k));
    }
  }

  lemma CommitLeavesFresh(t: Tables, l: Login, b: UserBatch)
    requires |b.audits| == 3 && Fresh(t, b) && OwnTargets(l.Batch()) !! OwnTargets(b)
    ensures Fresh(ApplyAll(t, LoginWrites(l.Batch())), b)
  {
    hide ApplyAll, LoginWrites, IdentityText, Lookup;
    forall x | x in OwnTargets(b)
      ensures Lookup(ApplyAll(t, LoginWrites(l.Batch())), x).None?
    {
      LoginCommitElsewhere(t, l.Batch(), x);
    }
  }

  lemma CommitCreates(t: Tables, l: Login)
    requires DistinctIds(l.ids)
    ensures CreatedOk(ApplyAll(t, LoginWrites(l.Batch())), l.Batch())
  {
    hide ApplyAll, LoginWrites, IdentityText;
    LoginCommitItems(t, l);
    var t' := ApplyAll(t, LoginWrites(l.Batch()));
    assert Lookup(t', UserAt(l.ids.user)).Some?;
    assert Lookup(t', ConstraintAt(SubjectKey(l.profile.subject))).Some?;
  }

  /** A submission either commits the whole account or changes nothing and knows why. */
  lemma SubmitOutcome(w: World, i: nat, weather: Weather, w': World)
    requires i in w.logins && w.logins[i].phase.Provisioning? && Submitted(w, i, weather, w')
    requires LoginOk(w.tables, w.logins[i])
    ensures var l, key := w.logins[i], SubjectKey(w.logins[i].profile.subject);
            && w'.logins.Keys == w.logins.Keys
            && w'.logins[i] == l.(attempts := l.attempts + 1, phase := w'.logins[i].phase)
            && (forall j | j in w.logins && j != i :: w'.logins[j] == w.logins[j])
            && (if weather.Clear? && key !in w.tables.constraints
                then w'.tables == ApplyAll(w.tables, LoginWrites(l.Batch())) && w'.created == w.created + [l.Batch()]
                     && w'.logins[i].phase == Returned(l.Batch().user)
                else w'.tables == w.tables && w'.created == w.created
                     && (w'.logins[i].phase.Provisioning? ==> l.attempts + 1 < MAX_TRANSACTION_ATTEMPTS)
                     && (w'.logins[i].phase in {Provisioning, Raised(Storage(Failed))}
                         || (w'.logins[i].phase == ResolvingWinner && key in w.tables.constraints)))
  {
    hide LoginWrites, IdentityText, ApplyAll, DistinctTargets, AllHold, Fresh, OwnTargets;
    OnlyTheRaceFails(w.tables, w.logins[i]);
    LoginHasTenPuts(w.logins[i].Batch());
  }

  lemma CommitKeepsLogins(w: World, i: nat, phase: Phase)
    requires LoginsOk(w.tables, w.logins) && IdsApart(w.logins) && i in w.logins && w.logins[i].phase.Provisioning?
    requires SubjectKey(w.logins[i].profile.subject) !in w.tables.constraints
    ensures var t' := ApplyAll(w.tables, LoginWrites(w.logins[i].Batch()));
            Extends(w.tables, t') && forall j | j in w.logins && j != i :: LoginOk(t', w.logins[j])
  {
    hide LoginWrites, IdentityText, ApplyAll, OwnTargets, Fresh, Extends, LoginOk;
    var l := w.logins[i];
    assert LoginOk(w.tables, l) && Fresh(w.tables, l.Batch()) && DistinctIds(l.ids) by { LoginIsFresh(w.tables, l); }
    CommitExtends(w.tables, l);
    var t' := ApplyAll(w.tables, LoginWrites(l.Batch()));
    forall j | j in w.logins && j != i
      ensures LoginOk(t', w.logins[j])
    {
      if Fresh(w.tables, w.logins[j].Batch()) {
        CommitLeavesFresh(w.tables, l, w.logins[j].Batch());
      }
      LoginOkStays(w.tables, t', w.logins[j]);
    }
  }

  lemma LoginIsFresh(t: Tables, l: Login)
    requires LoginOk(t, l) && !Done(l)
    ensures Fresh(t, l.Batch()) && DistinctIds(l.ids)
  {
    hide IdentityText, Fresh;
  }

  lemma CommitKeepsAccounts(t: Tables, t': Tables, created: seq<UserBatch>, l: Login)
    requires AccountsOk(t, created) && OnePerSubject(created) && Extends(t, t')
    requires SubjectKey(l.profile.subject) !in t.constraints && l.ids.user !in t.users && CreatedOk(t', l.Batch())
    ensures AccountsOk(t', created + [l.Batch()]) && OnePerSubject(created + [l.Batch()])
  {
    hide IdentityText;
    forall n | 0 <= n < |created|
      ensures CreatedOk(t', created[n])
      ensures created[n].identity.subject != l.profile.subject && created[n].user.id != l.ids.user
    {
      assert CreatedOk(t, created[n]);
    }
  }

  lemma CommitKeepsInv(w: World, i: nat, w': World)
    requires Inv(w) && i in w.logins && w.logins[i].phase.Provisioning?
    requires var l := w.logins[i];
             && SubjectKey(l.profile.subject) !in w.tables.constraints
             && w'.tables == ApplyAll(w.tables, LoginWrites(l.Batch())) && w'.created == w.created + [l.Batch()]
             && w'.logins == w.logins[i := l.(attempts := l.attempts + 1, phase := Returned(l.Batch().user))]
    ensures Inv(w')
  {
    hide LoginWrites, IdentityText, ApplyAll, OwnTargets, Valid, Fresh, AccountsOk, OnePerSubject, Extends, Lookup;
    var l := w.logins[i];
    LoginIsFresh(w.tables, l);
    OnlyTheRaceFails(w.tables, l);
    LoginCommit(w.tables, l);
    CommitKeepsLogins(w, i, w'.logins[i].phase);
    CommitCreates(w.tables, l);
    FreshUser(w.tables, l);
    CommitKeepsAccounts(w.tables, w'.tables, w.created, l);
  }

  lemma FreshUser(t: Tables, l: Login)
    requires Fresh(t, l.Batch())
    ensures l.ids.user !in t.users
  {
    assert Lookup(t, UserAt(l.Batch().user.id)).None?;
  }

  /** A step that moves one call and writes nothing. */
  lemma MoveKeepsInv(w: World, i: nat, l: Login)
    requires Inv(w) && i in w.logins && LoginOk(w.tables, l) && l.Batch() == w.logins[i].Batch()
    ensures Inv(w.(logins := w.logins[i := l]))
  {
    hide Valid, LoginOk, AccountsOk, OnePerSubject, OwnTargets, BuildBatch;
  }

  lemma BeginKeepsInv(w: World, i: nat, l: Login)
    requires Inv(w) && i !in w.logins && DistinctIds(l.ids) && Minted(w, l.Batch())
    requires l.phase == LookingUp && l.attempts == 0
    ensures Inv(w.(logins := w.logins[i := l]))
  {
    hide Valid, AccountsOk, OnePerSubject, OwnTargets, Fresh, IdentityText;
  }

  lemma ElsewhereKeepsInv(w: World, t': Tables)
    requires Inv(w) && LeavesLoginsAlone(w, t')
    ensures Inv(w.(tables := t'))
  {
    hide Valid, OnePerSubject, OwnTargets, Fresh, LoginOk, IdentityText;
    forall i | i in w.logins ensures LoginOk(t', w.logins[i]) {
      LoginOkStays(w.tables, t', w.logins[i]);
    }
  }

  /** Every step keeps the invariant. */
  lemma NextKeepsInv(w: World, step: Step, w': World)
    requires Inv(w) && Next(w, step, w')
    ensures Inv(w')
  {
    hide LoginWrites, IdentityText, ApplyAll, OwnTargets, Fresh, LoginOk, Valid, IdsApart, AccountsOk, OnePerSubject,
         AfterFind, AfterFetch, AfterResolve, Submitted, LeavesLoginsAlone, BuildBatch;
    match step {
      case Begin(i, profile, now, ids) => BeginKeepsInv(w, i, Login(profile, now, ids, 0, LookingUp));
      case Find(i) =>
        FindKeepsLogin(w.tables, w.logins[i]);
        MoveKeepsInv(w, i, w'.logins[i]);
      case Fetch(i) =>
        FetchKeepsLogin(w.tables, w.logins[i]);
        MoveKeepsInv(w, i, w'.logins[i]);
      case Submit(i, weather) => SubmitKeepsInv(w, i, weather, w');
      case Resolve(i) =>
        ResolveKeepsLogin(w.tables, w.logins[i]);
        MoveKeepsInv(w, i, w'.logins[i]);
      case Elsewhere => ElsewhereKeepsInv(w, w'.tables);
    }
  }

  lemma SubmitKeepsInv(w: World, i: nat, weather: Weather, w': World)
    requires Inv(w) && i in w.logins && w.logins[i].phase.Provisioning? && Submitted(w, i, weather, w')
    ensures Inv(w')
  {
    hide LoginWrites, IdentityText, ApplyAll, OwnTargets, Fresh, Valid, IdsApart, AccountsOk, OnePerSubject,
         Submitted, BuildBatch;
    var l := w.logins[i];
    assert LoginOk(w.tables, l);
    SubmitOutcome(w, i, weather, w');
    assert w'.logins == w.logins[i := w'.logins[i]];
    if weather.Clear? && SubjectKey(l.profile.subject) !in w.tables.constraints {
      CommitKeepsInv(w, i, w');
    } else {
      assert w' == w.(logins := w.logins[i := w'.logins[i]]);
      MoveKeepsInv(w, i, w'.logins[i]);
    }
  }

  lemma FindKeepsLogin(t: Tables, l: Login)
    requires Valid(t) && LoginOk(t, l) && (l.phase.LookingUp? || l.phase.Rechecking?)
    ensures LoginOk(t, l.(phase := AfterFind(t, l)))
  {
    hide IdentityText, Fresh, UsersOk, OrganizationsOk, MembershipsOk, ApiKeysOk, ReferencesHold;
  }

  lemma FetchKeepsLogin(t: Tables, l: Login)
    requires Valid(t) && LoginOk(t, l) && (l.phase.Fetching? || l.phase.RecheckFetching?)
    ensures LoginOk(t, l.(phase := AfterFetch(t, l)))
  {
    hide IdentityText, Fresh, OrganizationsOk, MembershipsOk, ApiKeysOk;
    var key := SubjectKey(l.profile.subject);
    assert t.constraints[key].entityId in t.identities;
    assert l.phase.owner in t.users;
    assert t.users[l.phase.owner].id == l.phase.owner;
  }

  lemma ResolveKeepsLogin(t: Tables, l: Login)
    requires Valid(t) && LoginOk(t, l) && l.phase.ResolvingWinner?
    ensures LoginOk(t, l.(phase := AfterResolve(t, l)))
  {
    hide IdentityText, Fresh, UsersOk, OrganizationsOk, MembershipsOk, ApiKeysOk, ReferencesHold;
  }

  /** A run may start on any valid store with no login under way. */
  lemma QuietStart(t: Tables)
    requires Valid(t)
    ensures Inv(World(t, map[], []))
  {
    hide Valid;
  }

  // ----- runs -----

  ghost predicate IsRun(run: seq<World>, steps: seq<Step>) {
    && |run| == |steps| + 1
    && forall n | 0 <= n < |steps| :: Next(run[n], steps[n], run[n + 1])
  }

  lemma {:induction false} RunKeepsInv(run: seq<World>, steps: seq<Step>, n: nat)
    requires IsRun(run, steps) && Inv(run[0]) && n < |run|
    ensures Inv(run[n])
  {
    hide Next, Inv;
    if n > 0 {
      RunKeepsInv(run, steps, n - 1);
      NextKeepsInv(run[n - 1], steps[n - 1], run[n]);
    }
  }

  lemma NextExtends(w: World, step: Step, w': World)
    requires Inv(w) && Next(w, step, w')
    ensures Extends(w.tables, w'.tables)
    ensures w.created <= w'.created
  {
    hide LoginWrites, IdentityText, ApplyAll, OwnTargets, Fresh, Valid, IdsApart, AccountsOk, OnePerSubject, BuildBatch;
    match step {
      case Submit(i, weather) =>
        assert LoginOk(w.tables, w.logins[i]);
        SubmitOutcome(w, i, weather, w');
        if weather.Clear? && SubjectKey(w.logins[i].profile.subject) !in w.tables.constraints {
          CommitExtends(w.tables, w.logins[i]);
        }
      case _ =>
    }
  }

  lemma {:induction false} RunExtends(run: seq<World>, steps: seq<Step>, m: nat, n: nat)
    requires IsRun(run, steps) && Inv(run[0]) && m <= n < |run|
    ensures Extends(run[m].tables, run[n].tables)
    ensures run[m].created <= run[n].created
  {
    hide Next, Inv;
    if m < n {
      RunExtends(run, steps, m, n - 1);
      RunKeepsInv(run, steps, n - 1);
      NextExtends(run[n - 1], steps[n - 1], run[n]);
    }
  }

  lemma OwnerStays(t: Tables, t': Tables, subject: string, user: string)
    requires Extends(t, t') && Owns(t, subject, user)
    ensures Owns(t', subject, user)
  {
    hide IdentityText;
  }

  lemma ReturnedOwns(w: World, i: nat)
    requires Inv(w) && i in w.logins && w.logins[i].phase.Returned?
    ensures Owns(w.tables, w.logins[i].profile.subject, w.logins[i].phase.user.id)
  {
    hide Valid, IdsApart, AccountsOk, OnePerSubject;
    assert LoginOk(w.tables, w.logins[i]);
  }

  lemma OneOwner(t: Tables, subject: string, user: string, user': string)
    requires Owns(t, subject, user) && Owns(t, subject, user')
    ensures user == user'
  {
  }

  /** Whenever two calls on one subject return, they return the same user. */
  lemma CallsConverge(run: seq<World>, steps: seq<Step>, m: nat, i: nat, n: nat, j: nat)
    requires IsRun(run, steps) && Inv(run[0]) && m <= n < |run|
    requires i in run[m].logins && j in run[n].logins
    requires run[m].logins[i].phase.Returned? && run[n].logins[j].phase.Returned?
    requires run[m].logins[i].profile.subject == run[n].logins[j].profile.subject
    ensures run[m].logins[i].phase.user.id == run[n].logins[j].phase.user.id
  {
    hide Next, Inv, Extends, Owns;
    var first, second := run[m].logins[i], run[n].logins[j];
    RunKeepsInv(run, steps, m);
    RunKeepsInv(run, steps, n);
    ReturnedOwns(run[m], i);
    ReturnedOwns(run[n], j);
    RunExtends(run, steps, m, n);
    OwnerStays(run[m].tables, run[n].tables, first.profile.subject, first.phase.user.id);
    OneOwner(run[n].tables, first.profile.subject, first.phase.user.id, second.phase.user.id);
  }

  /**
   One account per subject over the whole run, and distinct users for distinct subjects
   even if they share an email; every call on a provisioned subject that ends returns that
   account's user or reports a retryable failure.
   */
  lemma OneAccountPerSubject(run: seq<World>, steps: seq<Step>, n: nat)
    requires IsRun(run, steps) && Inv(run[0]) && n < |run|
    ensures OnePerSubject(run[n].created)
    ensures forall k, i | 0 <= k < |run[n].created| && i in run[n].logins
                          && run[n].logins[i].profile.subject == run[n].created[k].identity.subject ::
              match run[n].logins[i].phase
              case Returned(user) => user.id == run[n].created[k].user.id
              case Raised(e) => e == Storage(Failed)
              case _ => true
  {
    hide Next, IdentityText, Valid, OwnTargets;
    RunKeepsInv(run, steps, n);
    forall k, i | 0 <= k < |run[n].created| && i in run[n].logins
                  && run[n].logins[i].profile.subject == run[n].created[k].identity.subject
      ensures match run[n].logins[i].phase
              case Returned(user) => user.id == run[n].created[k].user.id
              case Raised(e) => e == Storage(Failed)
              case _ => true
    {
      assert CreatedOk(run[n].tables, run[n].created[k]) && LoginOk(run[n].tables, run[n].logins[i]);
    }
  }

  /** No interleaving makes a call report a provisioning conflict, or any duplicate. */
  lemma NeverAConflict(run: seq<World>, steps: seq<Step>, n: nat, i: nat)
    requires IsRun(run, steps) && Inv(run[0]) && n < |run|
    requires i in run[n].logins && run[n].logins[i].phase.Raised?
    ensures run[n].logins[i].phase.error in {DisabledUser, Storage(Failed)}
  {
    hide Next, IdentityText, Valid, OwnTargets;
    RunKeepsInv(run, steps, n);
    assert LoginOk(run[n].tables, run[n].logins[i]);
  }

  /** A call that creates an account adds exactly its five entities, and no other step of a call adds rows. */
  lemma StepAddsWholeAccounts(w: World, step: Step, w': World)
    requires Inv(w) && Next(w, step, w') && !step.Elsewhere?
    ensures (w'.created == w.created && w'.tables == w.tables)
            || (exists b :: w'.created == w.created + [b] && b.identity.subject == w.logins[step.login].profile.subject
                       && RowsOf(w'.tables) == PlusAll(RowsOf(w.tables), UserBatchRows(b)))
  {
    hide LoginWrites, IdentityText, ApplyAll, OwnTargets, Fresh, Valid, IdsApart, AccountsOk, OnePerSubject, RowsOf,
         PlusAll, UserBatchRows;
    match step {
      case Submit(i, weather) =>
        var l := w.logins[i];
        assert LoginOk(w.tables, l);
        SubmitOutcome(w, i, weather, w');
        if weather.Clear? && SubjectKey(l.profile.subject) !in w.tables.constraints {
          OnlyTheRaceFails(w.tables, l);
          LoginCommit(w.tables, l);
        }
      case _ =>
    }
  }
}
