/**
 The life of an API key. Creation, revocation, organization suspension and reactivation
 interleave freely; a key is revoked at most once, keeps the time of that first revocation,
 and its literal authenticates exactly until then.
 */
module KeyLifecycle {
  import opened Outcomes
  import opened Timestamps
  import opened Domain
  import opened Keys
  import opened Relational
  import opened Items
  import opened Transactions
  import opened Batches
  import opened Credentials

  // ----- verification of a literal -----

  /** get_api_key_by_key_id: the segment's constraint names the key, the key item is the answer. */
  function KeyBySegment(t: Tables, segment: string): Option<ApiKey> {
    if SegmentKey(segment) !in t.constraints then None
    else
      var id := t.constraints[SegmentKey(segment)].entityId;
      if id in t.apiKeys then Some(t.apiKeys[id].apiKey) else None
  }

  /** expires_at == now is expired. */
  predicate Expired(k: ApiKey, now: UtcTime) {
    k.expiresAt.Some? && !Earlier(now, k.expiresAt.value)
  }

  /** A key is expired from its expiry on. */
  lemma ExpiresAtItsInstant(k: ApiKey, now: UtcTime)
    ensures Expired(k, now) <==> k.expiresAt.Some? && Instant(k.expiresAt.value) <= Instant(now)
  {
    hide Instant, Earlier;
    if k.expiresAt.Some? {
      EarlierIffSooner(now, k.expiresAt.value);
    }
  }

  /** The verification pipeline; hmac stands for the keyed hash under the server's pepper. */
  function VerifyApiKey(t: Tables, hmac: string -> string, literal: string, now: UtcTime): Option<ApiKey> {
    var parsed :- ParseLiteral(literal);
    var key :- KeyBySegment(t, parsed.keyId);
    if hmac(parsed.secret) != key.secretHash then None
    else if parsed.environment != key.environment then None
    else if key.status != KeyActive then None
    else if Expired(key, now) then None
    else Some(key)
  }

  // ----- the calls -----

  datatype Task =
    | CreateKey(key: ApiKey)
    | RevokeKey(organizationId: string, keyId: string, at: UtcTime)
    | Suspend(organizationId: string, at: UtcTime)
    | Reactivate(organizationId: string, at: UtcTime)

  datatype Phase =
    | Started
    | Swapping
    | ReadingBack(swapped: bool)
    | Disabling
    | Scanning
    | Sweeping(ids: seq<string>)
    | Succeeded(key: Option<ApiKey>)
    | Rejected(error: StorageError)

  datatype Client = Client(task: Task, attempts: nat, phase: Phase)

  /** One committed revocation. */
  datatype Revocation = Revocation(keyId: string, at: UtcTime)

  /** log lists the revocations in commit order. */
  datatype World = World(tables: Tables, clients: map<nat, Client>, log: seq<Revocation>)

  /** found is what a table scan lists; it may be stale and incomplete. */
  datatype Step = Begin(client: nat, task: Task) | Go(client: nat, weather: Weather, found: seq<ApiKey>) | Elsewhere

  /** The ids of the organization's active keys that a scan listed. */
  function ActiveKeysOf(found: seq<ApiKey>, org: string): seq<string> {
    if found == [] then []
    else
      var last := found[|found| - 1];
      ActiveKeysOf(found[..|found| - 1], org)
      + if last.organizationId == org && last.status == KeyActive then [last.id] else []
  }

  /** A key stays and keeps its organization, so even a stale scan tells that right. */
  ghost predicate Glimpsed(t: Tables, found: seq<ApiKey>) {
    forall i | 0 <= i < |found| ::
      found[i].id in t.apiKeys && t.apiKeys[found[i].id].apiKey.organizationId == found[i].organizationId
  }

  function KeyWrites(k: ApiKey): seq<Write> {
    [PutApiKey(ToApiKeyItem(k)), PutConstraint(SegmentKey(k.keyId), ConstraintItem(k.id, None)),
     RequireOrganization(k.organizationId), RequireUser(k.createdBy)]
  }

  function KeyConflicts(): seq<Conflict> {
    [DuplicateConflict(EntityId), DuplicateConflict(ApiKeySegment), ReferenceConflict, ReferenceConflict]
  }

  predicate IsActiveKey(t: Tables, id: string) {
    id in t.apiKeys && t.apiKeys[id].apiKey.status == KeyActive
  }

  function WithKey(t: Tables, k: ApiKey): Tables
    requires k.id in t.apiKeys
  {
    t.(apiKeys := t.apiKeys[k.id := t.apiKeys[k.id].(apiKey := k)])
  }

  /** SET status = revoked, revoked_at = :at */
  function Revoke(t: Tables, id: string, at: UtcTime): Tables
    requires id in t.apiKeys && t.apiKeys[id].apiKey.id == id
  {
    WithKey(t, t.apiKeys[id].apiKey.(status := Revoked, revokedAt := Some(at)))
  }

  /** SET status = revoked, revoked_at = if_not_exists(revoked_at, :at) */
  function Sweep(t: Tables, id: string, at: UtcTime): Tables
    requires id in t.apiKeys && t.apiKeys[id].apiKey.id == id
  {
    var k := t.apiKeys[id].apiKey;
    WithKey(t, k.(status := Revoked, revokedAt := Some(k.revokedAt.GetOr(at))))
  }

  /** UPDATE api_keys SET status, revoked_at WHERE id AND status = 'active'. */
  function RevokedRows(r: Rows, id: string, at: UtcTime): Rows {
    r.(apiKeys := set k | k in r.apiKeys ::
                    if k.id == id && k.status == KeyActive then k.(status := Revoked, revokedAt := Some(at)) else k)
  }

  function WithOrganization(t: Tables, id: string, o: Organization): Tables {
    t.(organizations := t.organizations[id := o])
  }

  function Disabled(o: Organization, at: UtcTime): Organization {
    o.(status := Status.Disabled, suspendedAt := Some(o.suspendedAt.GetOr(at)), updatedAt := at)
  }

  function Enabled(o: Organization, at: UtcTime): Organization {
    o.(status := Active, suspendedAt := None, updatedAt := at)
  }

  // ----- the program of one call: one storage interaction -----

  datatype Effect = Effect(tables: Tables, phase: Phase, log: seq<Revocation>)

  /** create_api_key submits one transaction. */
  ghost function Create(t: Tables, c: Client, weather: Weather): Effect
    requires c.task.CreateKey?
  {
    var k := c.task.key;
    var a := Attempt(t, weather);
    match Judge(a, KeyWrites(k), KeyConflicts())
    case None => Effect(ItemsAfter(a, KeyWrites(k)), Succeeded(Some(k)), [])
    case Some(Retry) =>
      Effect(t, if c.attempts + 1 < MAX_TRANSACTION_ATTEMPTS then Started else Rejected(Failed), [])
    case Some(RoleCasMiss) => Effect(t, Rejected(Failed), [])
    case Some(Fail(e)) => Effect(t, Rejected(e), [])
  }

  /** revoke_api_key: tenancy read, compare-and-swap on the status, read of stored truth. */
  ghost function Revoking(t: Tables, c: Client, weather: Weather): Effect
    requires c.task.RevokeKey? && ApiKeysOk(t.apiKeys, t.constraints)
  {
    var id := c.task.keyId;
    match c.phase
    case Started =>
      var found := id in t.apiKeys && t.apiKeys[id].apiKey.organizationId == c.task.organizationId;
      Effect(t, if found then Swapping else Rejected(EntityNotFound), [])
    case Swapping =>
      (match weather
       case Clear =>
         if IsActiveKey(t, id)
         then Effect(Revoke(t, id, c.task.at), ReadingBack(true), [Revocation(id, c.task.at)])
         else Effect(t, ReadingBack(false), [])
       case Contended =>
         Effect(t, if c.attempts + 1 < MAX_TRANSACTION_ATTEMPTS then Swapping else Rejected(Failed), [])
       case _ => Effect(t, Rejected(Failed), []))
    case ReadingBack(swapped) =>
      Effect(t, if id in t.apiKeys then Succeeded(Some(t.apiKeys[id].apiKey))
                else Rejected(if swapped then Failed else EntityNotFound), [])
    case _ => Effect(t, c.phase, [])
  }

  /** admin_suspend_organization: disable, scan, then one conditional update per active key. */
  ghost function Suspending(t: Tables, c: Client, weather: Weather, found: seq<ApiKey>): Effect
    requires c.task.Suspend? && ApiKeysOk(t.apiKeys, t.constraints)
  {
    var org, at := c.task.organizationId, c.task.at;
    match c.phase
    case Started => Effect(t, if org in t.organizations then Disabling else Rejected(EntityNotFound), [])
    case Disabling =>
      if !weather.Clear? then Effect(t, Rejected(Failed), [])
      else if org !in t.organizations then Effect(t, Rejected(EntityNotFound), [])
      else Effect(WithOrganization(t, org, Disabled(t.organizations[org], at)), Scanning, [])
    case Scanning => Effect(t, Sweeping(ActiveKeysOf(found, org)), [])
    case Sweeping(ids) =>
      if ids == [] then Effect(t, Succeeded(None), [])
      else if !weather.Clear? then Effect(t, Rejected(Failed), [])
      else if IsActiveKey(t, ids[0]) then Effect(Sweep(t, ids[0], at), Sweeping(ids[1..]), [Revocation(ids[0], at)])
      else Effect(t, Sweeping(ids[1..]), [])
    case _ => Effect(t, c.phase, [])
  }

  ghost function Reactivating(t: Tables, c: Client, weather: Weather): Effect
    requires c.task.Reactivate?
  {
    var org := c.task.organizationId;
    match c.phase
    case Started =>
      if !weather.Clear? then Effect(t, Rejected(Failed), [])
      else if org !in t.organizations then Effect(t, Rejected(EntityNotFound), [])
      else Effect(WithOrganization(t, org, Enabled(t.organizations[org], c.task.at)), Succeeded(None), [])
    case _ => Effect(t, c.phase, [])
  }

  ghost function Interact(t: Tables, c: Client, weather: Weather, found: seq<ApiKey>): Effect
    requires ApiKeysOk(t.apiKeys, t.constraints)
  {
    match c.task
    case CreateKey(_) => if c.phase.Started? then Create(t, c, weather) else Effect(t, c.phase, [])
    case RevokeKey(_, _, _) => Revoking(t, c, weather)
    case Suspend(_, _) => Suspending(t, c, weather, found)
    case Reactivate(_, _) => Reactivating(t, c, weather)
  }

  /** A key is created active and without a revocation time. */
  predicate IsNewTask(task: Task) {
    task.CreateKey? ==> task.key.status == KeyActive && task.key.revokedAt == None
  }

  /** Everything else leaves keys and their segments alone. */
  ghost predicate LeavesKeysAlone(t: Tables, t': Tables) {
    && t'.apiKeys == t.apiKeys
    && forall s :: (SegmentKey(s) in t'.constraints <==> SegmentKey(s) in t.constraints)
              && (SegmentKey(s) in t.constraints ==> t'.constraints[SegmentKey(s)] == t.constraints[SegmentKey(s)])
  }

  ghost predicate Next(w: World, step: Step, w': World)
    requires ApiKeysOk(w.tables.apiKeys, w.tables.constraints)
  {
    match step
    case Begin(i, task) =>
      i !in w.clients && IsNewTask(task) && w' == w.(clients := w.clients[i := Client(task, 0, Started)])
    case Go(i, weather, found) =>
      && i in w.clients && Glimpsed(w.tables, found)
      && var c := w.clients[i];
         var e := Interact(w.tables, c, weather, found);
         var attempts := if e.phase == c.phase then c.attempts + 1 else 0;
         w' == World(e.tables, w.clients[i := c.(phase := e.phase, attempts := attempts)], w.log + e.log)
    case Elsewhere => LeavesKeysAlone(w.tables, w'.tables) && w' == w.(tables := w'.tables)
  }

  // ----- invariant -----

  predicate Logged(log: seq<Revocation>, id: string) {
    exists n :: 0 <= n < |log| && log[n].keyId == id
  }

  /** Revoked keys are the logged ones, and carry the logged time. */
  ghost predicate KeysOk(apiKeys: map<string, ApiKeyItem>, log: seq<Revocation>) {
    && (forall k | k in apiKeys ::
          && (apiKeys[k].apiKey.status == Revoked <==> apiKeys[k].apiKey.revokedAt.Some?)
          && (apiKeys[k].apiKey.status == Revoked <==> Logged(log, k)))
    && (forall n | 0 <= n < |log| ::
          log[n].keyId in apiKeys && apiKeys[log[n].keyId].apiKey.revokedAt == Some(log[n].at))
  }

  /** No key is revoked twice. */
  ghost predicate OnePerKey(log: seq<Revocation>) {
    forall m, n | 0 <= m < n < |log| :: log[m].keyId != log[n].keyId
  }

  predicate IsKeyOf(t: Tables, id: string, org: string) {
    id in t.apiKeys && t.apiKeys[id].apiKey.organizationId == org
  }

  /** A revocation got past the tenancy check, and once the swap is behind it its key is revoked. */
  ghost predicate RevokerOk(t: Tables, c: Client)
    requires c.task.RevokeKey?
  {
    && (c.phase.Swapping? || c.phase.ReadingBack? ==> IsKeyOf(t, c.task.keyId, c.task.organizationId))
    && (c.phase.ReadingBack? ==> t.apiKeys[c.task.keyId].apiKey.status == Revoked)
  }

  /** A sweep has only its own organization's keys ahead. */
  ghost predicate SweeperOk(t: Tables, c: Client)
    requires c.task.Suspend?
  {
    c.phase.Sweeping? ==> forall id | id in c.phase.ids :: IsKeyOf(t, id, c.task.organizationId)
  }

  ghost predicate ClientOk(t: Tables, c: Client) {
    && IsNewTask(c.task)
    && (c.task.RevokeKey? ==> RevokerOk(t, c))
    && (c.task.Suspend? ==> SweeperOk(t, c))
  }

  ghost predicate Inv(w: World) {
    && ApiKeysOk(w.tables.apiKeys, w.tables.constraints)
    && KeysOk(w.tables.apiKeys, w.log)
    && OnePerKey(w.log)
    && forall i | i in w.clients :: ClientOk(w.tables, w.clients[i])
  }

  /** How the keys may change in one step: not at all, by one new key, or by one revocation. */
  datatype Change = Nothing | Created(key: ApiKey) | Ended(id: string, at: UtcTime)

  ghost predicate Changes(t: Tables, change: Change, t': Tables, log: seq<Revocation>) {
    match change
    case Nothing => LeavesKeysAlone(t, t') && log == []
    case Created(k) =>
      && k.id !in t.apiKeys && SegmentKey(k.keyId) !in t.constraints
      && k.status == KeyActive && k.revokedAt == None && log == []
      && t'.apiKeys == t.apiKeys[k.id := ToApiKeyItem(k)]
      && t'.constraints == t.constraints[SegmentKey(k.keyId) := ConstraintItem(k.id, None)]
    case Ended(id, at) =>
      && IsActiveKey(t, id) && log == [Revocation(id, at)] && t'.constraints == t.constraints
      && t'.apiKeys == t.apiKeys[id :=
           t.apiKeys[id].(apiKey := t.apiKeys[id].apiKey.(status := Revoked, revokedAt := Some(at)))]
  }

  lemma ChecksLeaveItems(t: Tables, v: Write, w: Write, x: string, y: string)
    requires v == RequireOrganization(x) && w == RequireUser(y)
    ensures ApplyAll(t, [v, w]) == t
  {
    hide ApplyAll;
    TwoSteps(t, v, w);
  }

  lemma KeyEffect(t: Tables, k: ApiKey)
    ensures ApplyAll(t, KeyWrites(k)) == Apply(Apply(t, KeyWrites(k)[0]), KeyWrites(k)[1])
  {
    hide SortKey, ApplyAll, Apply;
    var ws := KeyWrites(k);
    assert ws == ws[..2] + [ws[2], ws[3]] && ws[..2] == [ws[0], ws[1]];
    TwoSteps(t, ws[0], ws[1]);
    ApplyAllAppends(t, ws[..2], [ws[2], ws[3]]);
    ChecksLeaveItems(ApplyAll(t, ws[..2]), ws[2], ws[3], k.organizationId, k.createdBy);
  }

  lemma KeyCommit(t: Tables, k: ApiKey)
    requires AllHold(t, KeyWrites(k))
    ensures k.id !in t.apiKeys && SegmentKey(k.keyId) !in t.constraints
    ensures var t' := ApplyAll(t, KeyWrites(k));
            && t'.apiKeys == t.apiKeys[k.id := ToApiKeyItem(k)]
            && t'.constraints == t.constraints[SegmentKey(k.keyId) := ConstraintItem(k.id, None)]
  {
    hide SortKey, ApplyAll;
    KeyEffect(t, k);
    var ws := KeyWrites(k);
    assert Holds(t, ws[0]) && Holds(t, ws[1]);
  }

  lemma CreationChanges(t: Tables, c: Client, weather: Weather) returns (change: Change)
    requires c.task.CreateKey? && IsNewTask(c.task)
    ensures Changes(t, change, Create(t, c, weather).tables, Create(t, c, weather).log)
    ensures change.Created? ==> c.task == CreateKey(change.key)
  {
    hide SortKey, ApplyAll, KeyWrites, AllHold;
    assert |KeyWrites(c.task.key)| == |KeyConflicts()| by { KeyWritesAlign(c.task.key); }
    if Judge(Attempt(t, weather), KeyWrites(c.task.key), KeyConflicts()).None? {
      KeyCommit(t, c.task.key);
      change := Created(c.task.key);
    } else {
      change := Nothing;
    }
  }

  lemma KeyWritesAlign(k: ApiKey)
    ensures |KeyWrites(k)| == |KeyConflicts()|
  {
  }

  lemma RevokingChanges(t: Tables, c: Client, weather: Weather) returns (change: Change)
    requires c.task.RevokeKey? && ApiKeysOk(t.apiKeys, t.constraints)
    ensures var e := Revoking(t, c, weather); Changes(t, change, e.tables, e.log)
    ensures !change.Created?
  {
    hide SortKey;
    var e := Revoking(t, c, weather);
    change := if e.log == [] then Nothing else Ended(c.task.keyId, c.task.at);
  }

  /** An active key has no revocation time, so if_not_exists writes the caller's. */
  lemma SweepEnds(t: Tables, id: string, at: UtcTime, log: seq<Revocation>)
    requires ApiKeysOk(t.apiKeys, t.constraints) && KeysOk(t.apiKeys, log) && IsActiveKey(t, id)
    ensures t.apiKeys[id].apiKey.id == id && Changes(t, Ended(id, at), Sweep(t, id, at), [Revocation(id, at)])
  {
    hide SortKey;
    assert t.apiKeys[id].apiKey.revokedAt == None;
  }

  lemma SuspendingChanges(t: Tables, c: Client, weather: Weather, found: seq<ApiKey>, log: seq<Revocation>)
      returns (change: Change)
    requires c.task.Suspend? && ApiKeysOk(t.apiKeys, t.constraints) && KeysOk(t.apiKeys, log)
    ensures var e := Suspending(t, c, weather, found); Changes(t, change, e.tables, e.log)
    ensures !change.Created?
  {
    hide SortKey, ApiKeysOk, KeysOk, Sweep;
    var e := Suspending(t, c, weather, found);
    if e.log == [] {
      change := Nothing;
    } else {
      change := Ended(c.phase.ids[0], c.task.at);
      SweepEnds(t, c.phase.ids[0], c.task.at, log);
    }
  }

  /** Every interaction is one of the three changes. */
  lemma InteractionChanges(t: Tables, c: Client, weather: Weather, found: seq<ApiKey>, log: seq<Revocation>)
      returns (change: Change)
    requires ApiKeysOk(t.apiKeys, t.constraints) && KeysOk(t.apiKeys, log) && IsNewTask(c.task)
    ensures var e := Interact(t, c, weather, found); Changes(t, change, e.tables, e.log)
    ensures change.Created? ==> c.task == CreateKey(change.key)
  {
    hide SortKey, ApplyAll, KeyWrites, ApiKeysOk, KeysOk, Create, Revoking, Suspending;
    match c.task {
      case CreateKey(_) =>
        if c.phase.Started? {
          change := CreationChanges(t, c, weather);
        } else {
          change := Nothing;
        }
      case RevokeKey(_, _, _) => change := RevokingChanges(t, c, weather);
      case Suspend(_, _) => change := SuspendingChanges(t, c, weather, found, log);
      case Reactivate(_, _) => change := Nothing;
    }
  }

  // ----- every step keeps the invariant -----

  lemma ChangeKeepsKeys(t: Tables, change: Change, t': Tables, log: seq<Revocation>, more: seq<Revocation>)
    requires ApiKeysOk(t.apiKeys, t.constraints) && KeysOk(t.apiKeys, log) && OnePerKey(log)
    requires Changes(t, change, t', more)
    ensures ApiKeysOk(t'.apiKeys, t'.constraints) && KeysOk(t'.apiKeys, log + more) && OnePerKey(log + more)
  {
    hide SortKey, ApiKeysOk, KeysOk, Logged;
    match change {
      case Nothing =>
        SameKeysOk(t, t');
        assert log + more == log;
      case Created(k) =>
        AddApiKey(t, k);
        CreatedKeepsKeys(t.apiKeys, k, log);
        assert log + more == log;
      case Ended(id, at) => EndedKeepsKeys(t, id, at, t', log);
    }
  }

  lemma SameKeysOk(t: Tables, t': Tables)
    requires ApiKeysOk(t.apiKeys, t.constraints) && LeavesKeysAlone(t, t')
    ensures ApiKeysOk(t'.apiKeys, t'.constraints)
  {
    hide SortKey;
  }

  lemma CreatedKeepsKeys(apiKeys: map<string, ApiKeyItem>, k: ApiKey, log: seq<Revocation>)
    requires KeysOk(apiKeys, log) && k.id !in apiKeys && k.status == KeyActive && k.revokedAt == None
    ensures KeysOk(apiKeys[k.id := ToApiKeyItem(k)], log)
  {
    hide SortKey;
  }

  lemma EndedKeepsIndex(t: Tables, id: string, at: UtcTime, t': Tables)
    requires ApiKeysOk(t.apiKeys, t.constraints) && Changes(t, Ended(id, at), t', [Revocation(id, at)])
    ensures ApiKeysOk(t'.apiKeys, t'.constraints)
  {
    hide SortKey;
  }

  lemma LoggedAfter(log: seq<Revocation>, r: Revocation, k: string)
    ensures Logged(log + [r], k) <==> Logged(log, k) || k == r.keyId
  {
    assert (log + [r])[|log|] == r;
    if Logged(log, k) {
      var n :| 0 <= n < |log| && log[n].keyId == k;
      assert (log + [r])[n].keyId == k;
    }
  }

  lemma EndedKeepsKeys(t: Tables, id: string, at: UtcTime, t': Tables, log: seq<Revocation>)
    requires ApiKeysOk(t.apiKeys, t.constraints) && KeysOk(t.apiKeys, log) && OnePerKey(log)
    requires Changes(t, Ended(id, at), t', [Revocation(id, at)])
    ensures ApiKeysOk(t'.apiKeys, t'.constraints)
    ensures KeysOk(t'.apiKeys, log + [Revocation(id, at)]) && OnePerKey(log + [Revocation(id, at)])
  {
    hide SortKey, ApiKeysOk, Logged;
    EndedKeepsIndex(t, id, at, t');
    var after := log + [Revocation(id, at)];
    assert !Logged(log, id);
    forall k | k in t'.apiKeys ensures Logged(after, k) <==> Logged(log, k) || k == id {
      LoggedAfter(log, Revocation(id, at), k);
    }
    forall n | 0 <= n < |log| ensures log[n].keyId != id {
      LoggedAt(log, n);
    }
  }

  lemma LoggedAt(log: seq<Revocation>, n: nat)
    requires n < |log|
    ensures Logged(log, log[n].keyId)
  {
  }

  lemma ChangeKeepsClients(t: Tables, change: Change, t': Tables, log: seq<Revocation>, c: Client)
    requires Changes(t, change, t', log) && ClientOk(t, c)
    ensures ClientOk(t', c)
  {
    hide SortKey;
  }

  lemma RevokingKeepsClient(t: Tables, c: Client, weather: Weather, attempts: nat)
    requires c.task.RevokeKey? && ApiKeysOk(t.apiKeys, t.constraints) && RevokerOk(t, c)
    ensures var e := Revoking(t, c, weather); RevokerOk(e.tables, c.(phase := e.phase, attempts := attempts))
  {
    hide SortKey;
  }

  lemma ActiveKeysAreFound(found: seq<ApiKey>, org: string)
    ensures forall id | id in ActiveKeysOf(found, org) ::
              exists i :: 0 <= i < |found| && found[i].id == id && found[i].organizationId == org
  {
    if found != [] {
      var front := found[..|found| - 1];
      ActiveKeysAreFound(front, org);
      forall id | id in ActiveKeysOf(found, org)
        ensures exists i :: 0 <= i < |found| && found[i].id == id && found[i].organizationId == org
      {
        if id in ActiveKeysOf(front, org) {
          var i :| 0 <= i < |front| && front[i].id == id && front[i].organizationId == org;
          assert found[i] == front[i];
        }
      }
    }
  }

  lemma SweepStarts(t: Tables, c: Client, found: seq<ApiKey>, attempts: nat)
    requires c.task.Suspend? && Glimpsed(t, found)
    ensures SweeperOk(t, c.(phase := Sweeping(ActiveKeysOf(found, c.task.organizationId)), attempts := attempts))
  {
    ActiveKeysAreFound(found, c.task.organizationId);
  }

  lemma SuspendingKeepsClient(t: Tables, c: Client, weather: Weather, found: seq<ApiKey>, attempts: nat)
    requires c.task.Suspend? && ApiKeysOk(t.apiKeys, t.constraints) && SweeperOk(t, c) && Glimpsed(t, found)
    ensures var e := Suspending(t, c, weather, found); SweeperOk(e.tables, c.(phase := e.phase, attempts := attempts))
  {
    hide SortKey, ActiveKeysOf, Glimpsed;
    if c.phase.Scanning? {
      SweepStarts(t, c, found, attempts);
    } else if c.phase.Sweeping? && c.phase.ids != [] {
      assert c.phase.ids[0] in c.phase.ids;
      assert forall id | id in c.phase.ids[1..] :: id in c.phase.ids;
    }
  }

  lemma InteractKeepsClient(t: Tables, c: Client, weather: Weather, found: seq<ApiKey>, attempts: nat)
    requires ApiKeysOk(t.apiKeys, t.constraints) && ClientOk(t, c) && Glimpsed(t, found)
    ensures var e := Interact(t, c, weather, found);
            ClientOk(e.tables, c.(phase := e.phase, attempts := attempts))
  {
    hide SortKey, Create, Suspending, Revoking, Reactivating, ApiKeysOk, RevokerOk, SweeperOk, Glimpsed;
    if c.task.RevokeKey? {
      RevokingKeepsClient(t, c, weather, attempts);
    } else if c.task.Suspend? {
      SuspendingKeepsClient(t, c, weather, found, attempts);
    }
  }

  /** A revocation is asked for by a call of the key's own organization, and carries that call's time. */
  lemma RevocationStaysInTenant(w: World, step: Step, w': World, r: Revocation)
    requires Inv(w) && Next(w, step, w') && w'.log == w.log + [r]
    ensures step.Go? && r.keyId in w.tables.apiKeys
    ensures var task := w.clients[step.client].task;
            match task
            case RevokeKey(org, id, at) => r == Revocation(id, at) && w.tables.apiKeys[id].apiKey.organizationId == org
            case Suspend(org, at) => r.at == at && w.tables.apiKeys[r.keyId].apiKey.organizationId == org
            case _ => false
  {
    hide SortKey, KeysOk, OnePerKey, KeyWrites, ApplyAll;
    assert |w'.log| == |w.log| + 1;
    var c := w.clients[step.client];
    assert ClientOk(w.tables, c);
    var e := Interact(w.tables, c, step.weather, step.found);
    assert w.log + e.log == w.log + [r];
    assert e.log == (w.log + e.log)[|w.log|..] == [r];
    if c.task.Suspend? {
      assert c.phase.ids[0] in c.phase.ids;
    }
  }

  lemma NextKeepsInv(w: World, step: Step, w': World)
    requires Inv(w) && Next(w, step, w')
    ensures Inv(w')
  {
    hide SortKey, ApiKeysOk, KeysOk, OnePerKey, ClientOk, Interact, Changes;
    match step {
      case Begin(i, task) => assert ClientOk(w.tables, Client(task, 0, Started)) by { BeginsOk(w.tables, task); }
      case Go(i, weather, found) =>
        var c := w.clients[i];
        assert ClientOk(w.tables, c);
        assert IsNewTask(c.task) by { TaskIsNew(w.tables, c); }
        var change := InteractionChanges(w.tables, c, weather, found, w.log);
        ChangeKeepsKeys(w.tables, change, w'.tables, w.log, Interact(w.tables, c, weather, found).log);
        InteractKeepsClient(w.tables, c, weather, found, w'.clients[i].attempts);
        forall j | j in w.clients && j != i ensures ClientOk(w'.tables, w.clients[j]) {
          ChangeKeepsClients(w.tables, change, w'.tables, Interact(w.tables, c, weather, found).log, w.clients[j]);
        }
      case Elsewhere => ElsewhereKeepsInv(w, w'.tables);
    }
  }

  lemma BeginsOk(t: Tables, task: Task)
    requires IsNewTask(task)
    ensures ClientOk(t, Client(task, 0, Started))
  {
  }

  lemma TaskIsNew(t: Tables, c: Client)
    requires ClientOk(t, c)
    ensures IsNewTask(c.task)
  {
  }

  lemma ElsewhereKeepsInv(w: World, t': Tables)
    requires Inv(w) && LeavesKeysAlone(w.tables, t')
    ensures Inv(w.(tables := t'))
  {
    hide SortKey, KeysOk, OnePerKey, ApiKeysOk;
    SameKeysOk(w.tables, t');
  }

  /** A run may start on any valid store whose keys are all active. */
  lemma QuietStart(t: Tables)
    requires ApiKeysOk(t.apiKeys, t.constraints)
    requires forall k | k in t.apiKeys :: t.apiKeys[k].apiKey.status == KeyActive && t.apiKeys[k].apiKey.revokedAt == None
    ensures Inv(World(t, map[], [])) && Answered(World(t, map[], []))
  {
    hide ApiKeysOk;
  }

  // ----- runs -----

  ghost predicate IsRun(run: seq<World>, steps: seq<Step>) {
    && |run| == |steps| + 1
    && forall n | 0 <= n < |steps| ::
         ApiKeysOk(run[n].tables.apiKeys, run[n].tables.constraints) && Next(run[n], steps[n], run[n + 1])
  }

  lemma {:induction false} RunKeepsInv(run: seq<World>, steps: seq<Step>, n: nat)
    requires IsRun(run, steps) && Inv(run[0]) && n < |run|
    ensures Inv(run[n])
  {
    hide Next, Inv, ApiKeysOk;
    if n > 0 {
      RunKeepsInv(run, steps, n - 1);
      NextKeepsInv(run[n - 1], steps[n - 1], run[n]);
    }
  }

  /** Keys stay, and only their status and revocation time ever change; the log only grows. */
  ghost predicate Ages(w: World, w': World) {
    && w.log <= w'.log
    && forall k | k in w.tables.apiKeys :: k in w'.tables.apiKeys
         && SameBut(w.tables.apiKeys[k].apiKey, w'.tables.apiKeys[k].apiKey)
  }

  predicate SameBut(k: ApiKey, k': ApiKey) {
    k' == k.(status := k'.status, revokedAt := k'.revokedAt)
  }

  lemma ChangeAges(w: World, change: Change, w': World, log: seq<Revocation>)
    requires Changes(w.tables, change, w'.tables, log) && w'.log == w.log + log
    ensures Ages(w, w')
  {
    hide SortKey;
  }

  lemma NextAges(w: World, step: Step, w': World)
    requires Inv(w) && Next(w, step, w')
    ensures Ages(w, w')
  {
    hide SortKey, ApiKeysOk, KeysOk, OnePerKey, Interact, Changes;
    match step {
      case Go(i, weather, found) =>
        var c := w.clients[i];
        assert ClientOk(w.tables, c);
        var change := InteractionChanges(w.tables, c, weather, found, w.log);
        ChangeAges(w, change, w', Interact(w.tables, c, weather, found).log);
      case _ =>
    }
  }

  lemma AgesIsTransitive(u: World, v: World, w: World)
    requires Ages(u, v) && Ages(v, w)
    ensures Ages(u, w)
  {
    hide SortKey;
  }

  lemma {:induction false} RunAges(run: seq<World>, steps: seq<Step>, m: nat, n: nat)
    requires IsRun(run, steps) && Inv(run[0]) && m <= n < |run|
    ensures Ages(run[m], run[n])
  {
    hide Next, Inv, ApiKeysOk;
    if m < n {
      RunAges(run, steps, m, n - 1);
      RunKeepsInv(run, steps, n - 1);
      NextAges(run[n - 1], steps[n - 1], run[n]);
      AgesIsTransitive(run[m], run[n - 1], run[n]);
    }
  }

  /**
   A key is revoked at most once. Its stored revocation time is that of the first and only
   committed revocation, and stays so whatever happens later.
   */
  lemma RevokedOnce(run: seq<World>, steps: seq<Step>, m: nat, n: nat, id: string)
    requires IsRun(run, steps) && Inv(run[0]) && m <= n < |run|
    requires id in run[m].tables.apiKeys && run[m].tables.apiKeys[id].apiKey.status == Revoked
    ensures OnePerKey(run[n].log) && Logged(run[n].log, id) && id in run[n].tables.apiKeys
    ensures run[n].tables.apiKeys[id].apiKey == run[m].tables.apiKeys[id].apiKey
    ensures exists r :: r in run[m].log && run[n].tables.apiKeys[id].apiKey.revokedAt == Some(r.at) && r.keyId == id
  {
    hide Next, SortKey, ApiKeysOk;
    RunKeepsInv(run, steps, m);
    RunKeepsInv(run, steps, n);
    RunAges(run, steps, m, n);
    var p :| 0 <= p < |run[m].log| && run[m].log[p].keyId == id;
    assert run[n].log[p] == run[m].log[p] && run[m].log[p] in run[m].log;
    LoggedAt(run[n].log, p);
  }

  /** The two-hop lookup finds exactly the key that carries the segment. */
  lemma SegmentFindsKey(t: Tables, id: string)
    requires ApiKeysOk(t.apiKeys, t.constraints) && id in t.apiKeys
    ensures KeyBySegment(t, t.apiKeys[id].apiKey.keyId) == Some(t.apiKeys[id].apiKey)
  {
    hide SortKey;
  }

  /**
   The literal handed out at creation authenticates the key at every later point of the run
   until the key's revocation is committed or its expiry is reached, and never after that.
   */
  lemma AcceptedUntilRevoked(run: seq<World>, steps: seq<Step>, m: nat, n: nat, k: ApiKey, secret: string, literal: string,
                             hmac: string -> string, now: UtcTime)
    requires IsRun(run, steps) && Inv(run[0]) && m <= n < |run|
    requires k.id in run[m].tables.apiKeys && run[m].tables.apiKeys[k.id].apiKey == k && k.secretHash == hmac(secret)
    requires BuildLiteral(Credential(k.environment, k.keyId, secret)) == Some(literal)
    ensures VerifyApiKey(run[n].tables, hmac, literal, now).Some?
       <==> !Logged(run[n].log, k.id) && (k.expiresAt.None? || Instant(now) < Instant(k.expiresAt.value))
    ensures VerifyApiKey(run[n].tables, hmac, literal, now).Some? ==>
              SameBut(k, VerifyApiKey(run[n].tables, hmac, literal, now).value)
    ensures Logged(run[m].log, k.id) ==> Logged(run[n].log, k.id)
  {
    hide Next, SortKey, ApiKeysOk, ParseLiteral, BuildLiteral, Logged, OnePerKey, Instant;
    RunKeepsInv(run, steps, m);
    RunKeepsInv(run, steps, n);
    RunAges(run, steps, m, n);
    LiteralBijection(Credential(k.environment, k.keyId, secret), literal);
    ExpiresAtItsInstant(k, now);
    var stored := run[n].tables.apiKeys[k.id].apiKey;
    SegmentFindsKey(run[n].tables, k.id);
    LoggedGrows(run[m].log, run[n].log, k.id);
  }

  lemma LoggedGrows(log: seq<Revocation>, log': seq<Revocation>, id: string)
    requires log <= log'
    ensures Logged(log, id) ==> Logged(log', id)
  {
    if Logged(log, id) {
      var n :| 0 <= n < |log| && log[n].keyId == id;
      assert log'[n].keyId == id;
    }
  }

  /** A revocation that succeeds answers with the first revocation's time, duplicates included. */
  ghost predicate Answered(w: World) {
    forall i | i in w.clients && w.clients[i].task.RevokeKey? && w.clients[i].phase.Succeeded? ::
      var k := w.clients[i].phase.key;
      k.Some? && k.value.status == Revoked && k.value.revokedAt.Some?
      && Revocation(w.clients[i].task.keyId, k.value.revokedAt.value) in w.log
  }

  lemma RevokedIsLogged(w: World, id: string)
    requires Inv(w) && id in w.tables.apiKeys && w.tables.apiKeys[id].apiKey.status == Revoked
    ensures w.tables.apiKeys[id].apiKey.revokedAt.Some?
    ensures Revocation(id, w.tables.apiKeys[id].apiKey.revokedAt.value) in w.log
  {
    hide SortKey, ApiKeysOk;
    var n :| 0 <= n < |w.log| && w.log[n].keyId == id;
    assert w.log[n] == Revocation(id, w.tables.apiKeys[id].apiKey.revokedAt.value);
  }

  lemma NextKeepsAnswers(w: World, step: Step, w': World)
    requires Inv(w) && Next(w, step, w') && Answered(w)
    ensures Answered(w')
  {
    hide SortKey, ApiKeysOk, KeysOk, OnePerKey, Create, Suspending;
    if step.Go? && w.clients[step.client].task.RevokeKey? {
      var c := w.clients[step.client];
      assert ClientOk(w.tables, c);
      if c.phase.ReadingBack? {
        RevokedIsLogged(w, c.task.keyId);
      }
    }
  }

  lemma {:induction false} RevocationsAnswerTheFirst(run: seq<World>, steps: seq<Step>, n: nat)
    requires IsRun(run, steps) && Inv(run[0]) && Answered(run[0]) && n < |run|
    ensures Answered(run[n]) && OnePerKey(run[n].log)
  {
    hide Next, ApiKeysOk, Answered;
    RunKeepsInv(run, steps, n);
    if n > 0 {
      RevocationsAnswerTheFirst(run, steps, n - 1);
      RunKeepsInv(run, steps, n - 1);
      NextKeepsAnswers(run[n - 1], steps[n - 1], run[n]);
    }
  }
}
