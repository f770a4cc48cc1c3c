/**
 TransactWriteItems: an ordered list of conditional writes that is evaluated on committed
 items only and applied whole or not at all, and the positional classification of a
 cancelled transaction.
 */
module Transactions {
  import opened Outcomes
  import opened Timestamps
  import opened Domain
  import opened Keys
  import opened Items

  datatype Write =
    | PutUser(user: UserItem)
    | PutIdentity(identity: ExternalIdentity)
    | PutOrganization(organization: Organization)
    | PutMembership(membership: MembershipItem)
    | PutApiKey(apiKey: ApiKeyItem)
    | PutAudit(audit: AuditEvent)
    | PutConstraint(key: ConstraintKey, item: ConstraintItem)
    | RequireUser(userId: string)
    | RequireOrganization(organizationId: string)
    | RequireActiveAdmin(witnessId: string)
    | SetRole(targetId: string, expected: ApplicationRole, role: ApplicationRole, roleAt: UtcTime)
    | Rename(renamed: Organization, oldSlug: string)
    | DropConstraint(dropped: ConstraintKey, ownerId: string)

  /** The item a write addresses. */
  datatype Target =
    | UserAt(userId: string)
    | IdentityAt(identityId: string)
    | OrganizationAt(organizationId: string)
    | MembershipAt(pair: (string, string))
    | ApiKeyAt(apiKeyId: string)
    | AuditAt(auditId: string)
    | ConstraintAt(key: ConstraintKey)

  function TargetOf(w: Write): Target {
    match w
    case PutUser(u) => UserAt(u.id)
    case PutIdentity(i) => IdentityAt(i.id)
    case PutOrganization(o) => OrganizationAt(o.id)
    case PutMembership(m) => MembershipAt(PairOf(m.membership))
    case PutApiKey(k) => ApiKeyAt(k.apiKey.id)
    case PutAudit(e) => AuditAt(e.id)
    case PutConstraint(key, _) => ConstraintAt(key)
    case RequireUser(id) => UserAt(id)
    case RequireOrganization(id) => OrganizationAt(id)
    case RequireActiveAdmin(id) => UserAt(id)
    case SetRole(id, _, _, _) => UserAt(id)
    case Rename(o, _) => OrganizationAt(o.id)
    case DropConstraint(key, _) => ConstraintAt(key)
  }

  /** The write's condition expression, on the items committed before the transaction. */
  predicate Holds(t: Tables, w: Write) {
    match w
    case PutUser(u) => u.id !in t.users
    case PutIdentity(i) => i.id !in t.identities
    case PutOrganization(o) => o.id !in t.organizations
    case PutMembership(m) => PairOf(m.membership) !in t.memberships
    case PutApiKey(k) => k.apiKey.id !in t.apiKeys
    case PutAudit(e) => e.id !in t.audits
    case PutConstraint(key, _) => key !in t.constraints
    case RequireUser(id) => id in t.users
    case RequireOrganization(id) => id in t.organizations
    case RequireActiveAdmin(id) => id in t.users && t.users[id].role == Some(Admin) && t.users[id].status == Active
    case SetRole(id, expected, _, _) => id in t.users && t.users[id].role == Some(expected)
    case Rename(o, oldSlug) => o.id in t.organizations && t.organizations[o.id].slug == oldSlug
    case DropConstraint(key, owner) => key in t.constraints && t.constraints[key].entityId == owner
  }

  function Apply(t: Tables, w: Write): Tables {
    match w
    case PutUser(u) => t.(users := t.users[u.id := u])
    case PutIdentity(i) => t.(identities := t.identities[i.id := i])
    case PutOrganization(o) => t.(organizations := t.organizations[o.id := o])
    case PutMembership(m) => t.(memberships := t.memberships[PairOf(m.membership) := m])
    case PutApiKey(k) => t.(apiKeys := t.apiKeys[k.apiKey.id := k])
    case PutAudit(e) => t.(audits := t.audits[e.id := e])
    case PutConstraint(key, item) => t.(constraints := t.constraints[key := item])
    case RequireUser(_) => t
    case RequireOrganization(_) => t
    case RequireActiveAdmin(_) => t
    case SetRole(id, _, role, at) =>
      if id in t.users
      then t.(users := t.users[id := t.users[id].(role := Some(role), gRole := Some(role), updatedAt := at)])
      else t
    case Rename(o, _) =>
      if o.id in t.organizations
      then t.(organizations := t.organizations[o.id := Renamed(t.organizations[o.id], o)])
      else t
    case DropConstraint(key, _) => t.(constraints := t.constraints - {key})
  }

  /** The attributes a slug-changing update writes. */
  function Renamed(stored: Organization, o: Organization): Organization {
    stored.(name := o.name, slug := o.slug, nameStatus := o.nameStatus, updatedAt := o.updatedAt)
  }

  function ApplyAll(t: Tables, ws: seq<Write>): Tables {
    if ws == [] then t else Apply(ApplyAll(t, ws[..|ws| - 1]), ws[|ws| - 1])
  }

  /** A transaction may address an item only once; otherwise the request is rejected unread. */
  predicate DistinctTargets(ws: seq<Write>) {
    forall i, j | 0 <= i < j < |ws| :: TargetOf(ws[i]) != TargetOf(ws[j])
  }

  predicate AllHold(t: Tables, ws: seq<Write>) {
    forall i | 0 <= i < |ws| :: Holds(t, ws[i])
  }

  predicate Commits(t: Tables, ws: seq<Write>) {
    DistinctTargets(ws) && AllHold(t, ws)
  }

  // ----- one transaction is its writes one after another -----

  /** Writes checked and applied in sequence, each on what the earlier ones left. */
  function Stepwise(t: Tables, ws: seq<Write>): Option<Tables> {
    if ws == [] then Some(t)
    else
      var before :- Stepwise(t, ws[..|ws| - 1]);
      if Holds(before, ws[|ws| - 1]) then Some(Apply(before, ws[|ws| - 1])) else None
  }

  datatype Cell =
    | UserCell(user: UserItem)
    | IdentityCell(identity: ExternalIdentity)
    | OrganizationCell(organization: Organization)
    | MembershipCell(membership: MembershipItem)
    | ApiKeyCell(apiKey: ApiKeyItem)
    | AuditCell(audit: AuditEvent)
    | ConstraintCell(item: ConstraintItem)

  function Lookup(t: Tables, x: Target): Option<Cell> {
    match x
    case UserAt(k) => if k in t.users then Some(UserCell(t.users[k])) else None
    case IdentityAt(k) => if k in t.identities then Some(IdentityCell(t.identities[k])) else None
    case OrganizationAt(k) => if k in t.organizations then Some(OrganizationCell(t.organizations[k])) else None
    case MembershipAt(k) => if k in t.memberships then Some(MembershipCell(t.memberships[k])) else None
    case ApiKeyAt(k) => if k in t.apiKeys then Some(ApiKeyCell(t.apiKeys[k])) else None
    case AuditAt(k) => if k in t.audits then Some(AuditCell(t.audits[k])) else None
    case ConstraintAt(k) => if k in t.constraints then Some(ConstraintCell(t.constraints[k])) else None
  }

  lemma ConditionReadsItsTarget(t: Tables, t': Tables, w: Write)
    requires Lookup(t, TargetOf(w)) == Lookup(t', TargetOf(w))
    ensures Holds(t, w) == Holds(t', w)
  {
  }

  lemma WriteChangesItsTarget(t: Tables, w: Write, x: Target)
    requires x != TargetOf(w)
    ensures Lookup(Apply(t, w), x) == Lookup(t, x)
  {
  }

  lemma OtherTargetsUnaffected(t: Tables, v: Write, w: Write)
    requires TargetOf(v) != TargetOf(w)
    ensures Holds(Apply(t, v), w) == Holds(t, w)
  {
    WriteChangesItsTarget(t, v, TargetOf(w));
    ConditionReadsItsTarget(Apply(t, v), t, w);
  }

  lemma {:induction false} EarlierWritesUnaffected(t: Tables, ws: seq<Write>, w: Write)
    requires forall i | 0 <= i < |ws| :: TargetOf(ws[i]) != TargetOf(w)
    ensures Holds(ApplyAll(t, ws), w) == Holds(t, w)
  {
    hide Holds, Apply, TargetOf;
    if ws != [] {
      var front := ws[..|ws| - 1];
      forall i | 0 <= i < |front| ensures TargetOf(front[i]) != TargetOf(w) {
        assert front[i] == ws[i];
      }
      EarlierWritesUnaffected(t, front, w);
      OtherTargetsUnaffected(ApplyAll(t, front), ws[|ws| - 1], w);
    }
  }

  /** Evaluating every condition up front agrees with running the writes in order. */
  lemma {:induction false} CommitIsStepwise(t: Tables, ws: seq<Write>)
    requires DistinctTargets(ws)
    ensures Stepwise(t, ws) == (if AllHold(t, ws) then Some(ApplyAll(t, ws)) else None)
  {
    hide Holds, Apply, TargetOf;
    if ws != [] {
      var front, w := ws[..|ws| - 1], ws[|ws| - 1];
      CommitIsStepwise(t, front);
      EarlierWritesUnaffected(t, front, w);
      assert AllHold(t, ws) <==> AllHold(t, front) && Holds(t, w);
    }
  }

  lemma {:induction false} ApplyAllAppends(t: Tables, vs: seq<Write>, ws: seq<Write>)
    ensures ApplyAll(t, vs + ws) == ApplyAll(ApplyAll(t, vs), ws)
  {
    hide Apply;
    if ws == [] {
      assert vs + ws == vs;
    } else {
      assert (vs + ws)[..|vs + ws| - 1] == vs + ws[..|ws| - 1];
      ApplyAllAppends(t, vs, ws[..|ws| - 1]);
    }
  }

  lemma {:induction false} StepwiseAppends(t: Tables, vs: seq<Write>, ws: seq<Write>)
    ensures Stepwise(t, vs + ws) == (if Stepwise(t, vs).None? then None else Stepwise(Stepwise(t, vs).value, ws))
  {
    hide Holds, Apply;
    if ws == [] {
      assert vs + ws == vs;
    } else {
      assert (vs + ws)[..|vs + ws| - 1] == vs + ws[..|ws| - 1];
      StepwiseAppends(t, vs, ws[..|ws| - 1]);
    }
  }

  /** Items that no write addresses stay as they were. */
  lemma {:induction false} UntouchedItems(t: Tables, ws: seq<Write>, x: Target)
    requires forall i | 0 <= i < |ws| :: TargetOf(ws[i]) != x
    ensures Lookup(ApplyAll(t, ws), x) == Lookup(t, x)
  {
    hide TargetOf, Lookup, Apply;
    if ws != [] {
      UntouchedItems(t, ws[..|ws| - 1], x);
      WriteChangesItsTarget(ApplyAll(t, ws[..|ws| - 1]), ws[|ws| - 1], x);
    }
  }

  /** With distinct targets, each write leaves on its item what it would leave alone. */
  lemma {:induction false} WrittenItems(t: Tables, ws: seq<Write>, i: nat)
    requires DistinctTargets(ws) && i < |ws|
    ensures Lookup(ApplyAll(t, ws), TargetOf(ws[i])) == Lookup(Apply(t, ws[i]), TargetOf(ws[i]))
  {
    var front, last := ws[..|ws| - 1], ws[|ws| - 1];
    if i < |front| {
      WrittenItems(t, front, i);
      WriteChangesItsTarget(ApplyAll(t, front), last, TargetOf(ws[i]));
    } else {
      UntouchedItems(t, front, TargetOf(last));
      SameItemSameEffect(ApplyAll(t, front), t, last);
    }
  }

  lemma SameItemSameEffect(t: Tables, t': Tables, w: Write)
    requires Lookup(t, TargetOf(w)) == Lookup(t', TargetOf(w))
    ensures Lookup(Apply(t, w), TargetOf(w)) == Lookup(Apply(t', w), TargetOf(w))
  {
    hide Renamed;
    if w.SetRole? || w.Rename? || w.DropConstraint? {
      SameItemSameUpdate(t, t', w);
    }
  }

  lemma SameItemSameUpdate(t: Tables, t': Tables, w: Write)
    requires w.SetRole? || w.Rename? || w.DropConstraint?
    requires Lookup(t, TargetOf(w)) == Lookup(t', TargetOf(w))
    ensures Lookup(Apply(t, w), TargetOf(w)) == Lookup(Apply(t', w), TargetOf(w))
  {
  }

  // ----- cancellation and its classification -----

  /** What a failed condition at one position means to the caller. */
  datatype Conflict =
    | DuplicateConflict(kind: DuplicateKind)
    | NotFoundConflict
    | IdentityRaceConflict
    | ReferenceConflict
    | LastAdminConflict
    | RoleCasConflict

  datatype Reason = NoError | ConditionalCheckFailed | TransactionConflict | Throttled | OtherReason

  /** The classifier's answer: run the write again, resolve a lost role CAS, or fail. */
  datatype Verdict = Retry | RoleCasMiss | Fail(error: StorageError)

  function ConflictVerdict(c: Conflict): Verdict {
    match c
    case DuplicateConflict(kind) => Fail(Duplicate(kind))
    case NotFoundConflict => Fail(EntityNotFound)
    case IdentityRaceConflict => Fail(IdentityRace(None))
    case ReferenceConflict => Fail(ReferenceNotFound)
    case LastAdminConflict => Fail(LastActiveAdministrator)
    case RoleCasConflict => RoleCasMiss
  }

  /** The reasons of a cancelled transaction, aligned with its writes. */
  function Reasons(t: Tables, ws: seq<Write>): seq<Reason> {
    seq(|ws|, i requires 0 <= i < |ws| => if Holds(t, ws[i]) then NoError else ConditionalCheckFailed)
  }

  /** Failed conditions and contention in one cancellation. */
  function MixedReasons(t: Tables, ws: seq<Write>): seq<Reason> {
    seq(|ws|, i requires 0 <= i < |ws| => if Holds(t, ws[i]) then TransactionConflict else ConditionalCheckFailed)
  }

  ghost predicate FirstAt(reasons: seq<Reason>, reason: Reason, i: nat) {
    i < |reasons| && reasons[i] == reason && forall j | 0 <= j < i :: reasons[j] != reason
  }

  /**
   The first failed condition in submission order decides; without one, throughput beats
   contention and contention asks for a retry.
   */
  method ClassifyCancellation(reasons: seq<Reason>, conflicts: seq<Conflict>) returns (verdict: Verdict)
    ensures forall i: nat | FirstAt(reasons, ConditionalCheckFailed, i) ::
              verdict == if i < |conflicts| then ConflictVerdict(conflicts[i]) else Fail(Failed)
    ensures ConditionalCheckFailed !in reasons ==>
              verdict == if Throttled !in reasons && TransactionConflict in reasons then Retry else Fail(Failed)
  {
    for index := 0 to |reasons|
      invariant ConditionalCheckFailed !in reasons[..index]
    {
      if reasons[index] == ConditionalCheckFailed {
        assert FirstAt(reasons, ConditionalCheckFailed, index);
        return if index < |conflicts| then ConflictVerdict(conflicts[index]) else Fail(Failed);
      }
    }
    var transient := false;
    for index := 0 to |reasons|
      invariant Throttled !in reasons[..index]
      invariant transient <==> TransactionConflict in reasons[..index]
    {
      if reasons[index] == TransactionConflict {
        transient := true;
      } else if reasons[index] == Throttled {
        return Fail(Failed);
      }
    }
    assert reasons[..|reasons|] == reasons;
    return if transient then Retry else Fail(Failed);
  }

  // ----- submission with bounded retry -----

  const MAX_TRANSACTION_ATTEMPTS: nat := 5

  /**
   How the service treats one submission: it evaluates the conditions, in peace or while some
   of the items are in another transaction, or turns the submission away.
   */
  datatype Weather = Clear | Disturbed | Contended | Overloaded | Faulty

  predicate Evaluated(weather: Weather) {
    weather.Clear? || weather.Disturbed?
  }

  /** One submission: the items other clients have left by then, and the service's mood. */
  datatype Attempt = Attempt(arrival: Tables, weather: Weather)

  datatype Response = Committed | Cancelled(reasons: seq<Reason>) | Unavailable

  function Respond(a: Attempt, ws: seq<Write>): Response {
    match a.weather
    case Clear =>
      if !DistinctTargets(ws) then Unavailable
      else if AllHold(a.arrival, ws) then Committed
      else Cancelled(Reasons(a.arrival, ws))
    case Disturbed => if !DistinctTargets(ws) then Unavailable else Cancelled(MixedReasons(a.arrival, ws))
    case Contended => Cancelled(seq(|ws|, i => TransactionConflict))
    case Overloaded => Cancelled(seq(|ws|, i => Throttled))
    case Faulty => Unavailable
  }

  function ItemsAfter(a: Attempt, ws: seq<Write>): Tables {
    if Respond(a, ws).Committed? then ApplyAll(a.arrival, ws) else a.arrival
  }

  ghost predicate FirstFailure(t: Tables, ws: seq<Write>, i: nat) {
    i < |ws| && !Holds(t, ws[i]) && forall j | 0 <= j < i :: Holds(t, ws[j])
  }

  lemma {:induction false} FirstFailureUpTo(t: Tables, ws: seq<Write>, n: nat)
    requires n < |ws| && !Holds(t, ws[n])
    ensures exists i: nat :: FirstFailure(t, ws, i)
    decreases n
  {
    if j :| 0 <= j < n && !Holds(t, ws[j]) {
      FirstFailureUpTo(t, ws, j);
    } else {
      assert FirstFailure(t, ws, n);
    }
  }

  /** The position that decides the error: the first failed condition. */
  ghost function Blamed(t: Tables, ws: seq<Write>): (i: nat)
    requires !AllHold(t, ws)
    ensures FirstFailure(t, ws, i)
  {
    var n :| 0 <= n < |ws| && !Holds(t, ws[n]);
    FirstFailureUpTo(t, ws, n);
    var i: nat :| FirstFailure(t, ws, i);
    i
  }

  /** What the caller learns from one submission: None when it committed. */
  ghost function Judge(a: Attempt, ws: seq<Write>, conflicts: seq<Conflict>): Option<Verdict>
    requires |conflicts| == |ws| > 0
  {
    match a.weather
    case Clear =>
      if !DistinctTargets(ws) then Some(Fail(Failed))
      else if AllHold(a.arrival, ws) then None
      else Some(ConflictVerdict(conflicts[Blamed(a.arrival, ws)]))
    case Disturbed =>
      if !DistinctTargets(ws) then Some(Fail(Failed))
      else if AllHold(a.arrival, ws) then Some(Retry)
      else Some(ConflictVerdict(conflicts[Blamed(a.arrival, ws)]))
    case Contended => Some(Retry)
    case Overloaded => Some(Fail(Failed))
    case Faulty => Some(Fail(Failed))
  }

  /** One submission, translated: what Judge says, and the items it leaves. */
  method SubmitOnce(a: Attempt, ws: seq<Write>, conflicts: seq<Conflict>) returns (verdict: Option<Verdict>)
    requires |conflicts| == |ws| > 0
    ensures verdict == Judge(a, ws, conflicts)
    ensures verdict.None? <==> Respond(a, ws).Committed?
  {
    match Respond(a, ws) {
      case Committed =>
        verdict := None;
      case Cancelled(reasons) =>
        var v := ClassifyCancellation(reasons, conflicts);
        verdict := Some(v);
        if Evaluated(a.weather) && !AllHold(a.arrival, ws) {
          assert FirstAt(reasons, ConditionalCheckFailed, Blamed(a.arrival, ws));
        } else {
          assert reasons[0] in reasons;
        }
      case Unavailable =>
        verdict := Some(Fail(Failed));
    }
  }

  /** Every attempt before this one was turned away by contention. */
  ghost predicate RetriedUntil(attempts: seq<Attempt>, ws: seq<Write>, conflicts: seq<Conflict>, k: nat)
    requires |conflicts| == |ws| > 0
  {
    k < |attempts| && forall j | 0 <= j < k :: Judge(attempts[j], ws, conflicts) == Some(Retry)
  }

  /**
   A transaction with bounded transient retry. Whatever other clients leave between the
   attempts, the writes are applied on at most one of them, and only when the call reports
   success; a domain error ends the call at once.
   */
  method ExecuteTransaction(attempts: seq<Attempt>, ws: seq<Write>, conflicts: seq<Conflict>)
      returns (verdict: Option<Verdict>, tables: Tables)
    requires |attempts| == MAX_TRANSACTION_ATTEMPTS && |conflicts| == |ws| > 0
    ensures verdict != Some(Retry)
    ensures exists k: nat :: RetriedUntil(attempts, ws, conflicts, k)
                        && tables == ItemsAfter(attempts[k], ws)
                        && (verdict.None? <==> Commits(attempts[k].arrival, ws) && attempts[k].weather.Clear?)
                        && (verdict == Judge(attempts[k], ws, conflicts)
                            || (k == |attempts| - 1 && verdict == Some(Fail(Failed))
                                && Judge(attempts[k], ws, conflicts) == Some(Retry)))
  {
    tables := attempts[0].arrival;
    for k := 0 to |attempts|
      invariant forall j | 0 <= j < k :: Judge(attempts[j], ws, conflicts) == Some(Retry)
      invariant k > 0 ==> tables == attempts[k - 1].arrival
    {
      verdict := SubmitOnce(attempts[k], ws, conflicts);
      tables := ItemsAfter(attempts[k], ws);
      assert RetriedUntil(attempts, ws, conflicts, k);
      if verdict != Some(Retry) {
        return;
      }
    }
    verdict := Some(Fail(Failed));
    assert RetriedUntil(attempts, ws, conflicts, |attempts| - 1);
  }
}
