/**
 The three listings on both adapters: an organization's memberships, an organization's API
 keys, and a user's organizations. SQL orders rows by two columns; the key-value form walks
 an index whose one sort key stands for both. Page for page they return the same.
 */
module Listing {
  import opened Outcomes
  import opened Text
  import opened Timestamps
  import opened Domain
  import opened Keys
  import opened Items
  import opened Pagination
  import Reachable

  // ----- rows ordered by (created_at, id) -----

  /** ORDER BY created_at ASC, id ASC on the stored texts. */
  predicate RowBefore(a: UtcTime, x: string, b: UtcTime, y: string) {
    Before(Encode(a), Encode(b)) || (Encode(a) == Encode(b) && Before(x, y))
  }

  /** AND (created_at > ? OR (created_at = ? AND id > ?)) */
  predicate RowAfter(position: Option<(UtcTime, string)>, b: UtcTime, y: string) {
    position.None? || RowBefore(position.value.0, position.value.1, b, y)
  }

  /** The rows of one SELECT with its keyset condition, order and LIMIT. */
  ghost predicate IsRowFetch<T(!new)>(rows: set<T>, created: T -> UtcTime, id: T -> string,
                                      position: Option<(UtcTime, string)>, n: nat, s: seq<T>) {
    && |s| <= n
    && (forall i, j | 0 <= i < j < |s| :: RowBefore(created(s[i]), id(s[i]), created(s[j]), id(s[j])))
    && (forall i | 0 <= i < |s| :: s[i] in rows && RowAfter(position, created(s[i]), id(s[i])))
    && (forall x | x in rows && RowAfter(position, created(x), id(x)) ::
          x in s || (|s| == n > 0 && RowBefore(created(s[n - 1]), id(s[n - 1]), created(x), id(x))))
  }

  function KeyOf<T>(created: T -> UtcTime, id: T -> string, x: T): string {
    SortKey(created(x), id(x))
  }

  function PositionKey(position: Option<(UtcTime, string)>): Option<string> {
    if position.None? then None else Some(SortKey(position.value.0, position.value.1))
  }

  function WithKeys<T>(created: T -> UtcTime, id: T -> string, s: seq<T>): seq<(string, T)> {
    seq(|s|, i requires 0 <= i < |s| => (KeyOf(created, id, s[i]), s[i]))
  }

  /** The two-column order is the order of the one sort key. */
  lemma RowOrderIsKeyOrder(a: UtcTime, x: string, b: UtcTime, y: string)
    ensures RowBefore(a, x, b, y) <==> Before(SortKey(a, x), SortKey(b, y))
  {
    hide SortKey, Encode, Earlier;
    SortKeyOrder(a, x, b, y);
    EncodeKeepsOrder(a, b);
    EncodeKeepsOrder(b, a);
    DecodeInvertsEncode(a);
    DecodeInvertsEncode(b);
    BeforeIsIrreflexive(Encode(a));
    EarlierIsIrreflexive(a);
  }

  lemma EarlierIsIrreflexive(a: UtcTime)
    ensures !Earlier(a, a)
  {
  }

  /** The index holds exactly these rows under their sort keys. */
  ghost predicate Indexes<T(!new)>(index: map<string, T>, keep: T -> bool, rows: set<T>,
                                   created: T -> UtcTime, id: T -> string) {
    && (forall k | k in index && keep(index[k]) :: index[k] in rows && k == KeyOf(created, id, index[k]))
    && (forall x | x in rows :: KeyOf(created, id, x) in index && index[KeyOf(created, id, x)] == x && keep(x))
  }

  /** A SELECT over the rows is a fetch from their index. */
  lemma RowFetchIsFetch<T(!new)>(index: map<string, T>, keep: T -> bool, rows: set<T>, created: T -> UtcTime, id: T -> string,
                                 position: Option<(UtcTime, string)>, n: nat, s: seq<T>)
    requires Indexes(index, keep, rows, created, id) && IsRowFetch(rows, created, id, position, n, s)
    ensures IsFetch(index, keep, PositionKey(position), n, WithKeys(created, id, s))
  {
    hide SortKey, Encode;
    var keyed := WithKeys(created, id, s);
    forall a, x, b, y ensures RowBefore(a, x, b, y) <==> Before(SortKey(a, x), SortKey(b, y)) {
      RowOrderIsKeyOrder(a, x, b, y);
    }
    forall k | k in index && keep(index[k]) && After(PositionKey(position), k)
      ensures (k, index[k]) in keyed || (|keyed| == n > 0 && Before(keyed[n - 1].0, k))
    {
      var x := index[k];
      assert RowAfter(position, created(x), id(x));
      if x in s {
        var i :| 0 <= i < |s| && s[i] == x;
        assert keyed[i] == (k, x);
      }
    }
  }

  /**
   Whatever the batching of the query, the page of the index is the page of the SELECT: the
   same rows in the same order, and a cursor on both sides or on neither.
   */
  lemma SamePage<T(!new)>(states: nat -> map<string, T>, keep: T -> bool, from: nat, to: nat, bound: Option<string>,
                          matches: seq<(string, T)>, limit: nat, index: map<string, T>, rows: set<T>,
                          created: T -> UtcTime, id: T -> string, position: Option<(UtcTime, string)>, s: seq<T>)
    requires from < to && (forall n: nat :: states(n) == index) && limit > 0
    requires Gathered(states, keep, from, to, PositionKey(position), bound, matches)
    requires bound.Some? ==> |matches| >= limit + 1
    requires Indexes(index, keep, rows, created, id) && IsRowFetch(rows, created, id, position, limit + 1, s)
    ensures PageOf(matches, limit) == PageOf(WithKeys(created, id, s), limit)
    ensures PageOf(matches, limit).cursor.Some? <==> |s| > limit
    ensures |s| > limit ==> PageOf(matches, limit).cursor == Some(SortKey(created(s[limit - 1]), id(s[limit - 1])))
  {
    hide SortKey, Gathered, Indexes, IsRowFetch, IsFetch;
    RowFetchIsFetch(index, keep, rows, created, id, position, limit + 1, s);
    PageParity(states, keep, from, to, PositionKey(position), bound, matches, limit, index, WithKeys(created, id, s));
  }

  // ----- the listings -----

  /** WHERE organization_id = ? on memberships. */
  function OrganizationMemberships(t: Tables, organization: string): set<Membership> {
    set m | m in RowsOf(t).memberships && m.organizationId == organization
  }

  function OrganizationKeys(t: Tables, organization: string): set<ApiKey> {
    set k | k in RowsOf(t).apiKeys && k.organizationId == organization
  }

  /** The by-organization index of memberships: one partition. */
  ghost predicate MembershipPartition(t: Tables, organization: string, index: map<string, Membership>) {
    && (forall k | k in t.memberships && t.memberships[k].gOrg == organization ::
          t.memberships[k].gCreated in index && index[t.memberships[k].gCreated] == t.memberships[k].membership)
    && (forall s | s in index :: exists k :: k in t.memberships && t.memberships[k].gOrg == organization
                                        && t.memberships[k].gCreated == s && t.memberships[k].membership == index[s])
  }

  ghost predicate KeyPartition(t: Tables, organization: string, index: map<string, ApiKey>) {
    && (forall k | k in t.apiKeys && t.apiKeys[k].gOrg == organization ::
          t.apiKeys[k].gCreated in index && index[t.apiKeys[k].gCreated] == t.apiKeys[k].apiKey)
    && (forall s | s in index :: exists k :: k in t.apiKeys && t.apiKeys[k].gOrg == organization
                                        && t.apiKeys[k].gCreated == s && t.apiKeys[k].apiKey == index[s])
  }

  lemma MembershipsIndexed(t: Tables, organization: string, index: map<string, Membership>)
    requires Valid(t) && MembershipPartition(t, organization, index)
    ensures Indexes(index, m => true, OrganizationMemberships(t, organization),
                    (m: Membership) => m.createdAt, (m: Membership) => m.id)
  {
    hide SortKey, UsersOk, IdentitiesOk, OrganizationsOk, ApiKeysOk, AuditsOk, SessionsOk, ReferencesHold;
  }

  lemma KeysIndexed(t: Tables, organization: string, index: map<string, ApiKey>)
    requires Valid(t) && KeyPartition(t, organization, index)
    ensures Indexes(index, k => true, OrganizationKeys(t, organization), (k: ApiKey) => k.createdAt, (k: ApiKey) => k.id)
  {
    hide SortKey, UsersOk, IdentitiesOk, OrganizationsOk, MembershipsOk, AuditsOk, SessionsOk, ReferencesHold;
  }

  /** list_memberships: on a store at rest both adapters return the same page. */
  lemma MembershipPagesAgree(t: Tables, organization: string, states: nat -> map<string, Membership>, from: nat, to: nat,
                             bound: Option<string>, matches: seq<(string, Membership)>, limit: nat,
                             position: Option<(UtcTime, string)>, s: seq<Membership>)
    requires Valid(t) && from < to && limit > 0
    requires forall n: nat :: MembershipPartition(t, organization, states(n)) && states(n) == states(0)
    requires Gathered(states, m => true, from, to, PositionKey(position), bound, matches)
    requires bound.Some? ==> |matches| >= limit + 1
    requires IsRowFetch(OrganizationMemberships(t, organization), (m: Membership) => m.createdAt, (m: Membership) => m.id,
                        position, limit + 1, s)
    ensures PageOf(matches, limit) == PageOf(WithKeys((m: Membership) => m.createdAt, (m: Membership) => m.id, s), limit)
    ensures PageOf(matches, limit).cursor.Some? <==> |s| > limit
  {
    hide Valid, SortKey, Gathered, IsRowFetch, Indexes;
    assert MembershipPartition(t, organization, states(0));
    MembershipsIndexed(t, organization, states(0));
    SamePage(states, m => true, from, to, bound, matches, limit, states(0), OrganizationMemberships(t, organization),
             (m: Membership) => m.createdAt, (m: Membership) => m.id, position, s);
  }

  /** list_api_keys likewise. */
  lemma KeyPagesAgree(t: Tables, organization: string, states: nat -> map<string, ApiKey>, from: nat, to: nat,
                      bound: Option<string>, matches: seq<(string, ApiKey)>, limit: nat,
                      position: Option<(UtcTime, string)>, s: seq<ApiKey>)
    requires Valid(t) && from < to && limit > 0
    requires forall n: nat :: KeyPartition(t, organization, states(n)) && states(n) == states(0)
    requires Gathered(states, k => true, from, to, PositionKey(position), bound, matches)
    requires bound.Some? ==> |matches| >= limit + 1
    requires IsRowFetch(OrganizationKeys(t, organization), (k: ApiKey) => k.createdAt, (k: ApiKey) => k.id,
                        position, limit + 1, s)
    ensures PageOf(matches, limit) == PageOf(WithKeys((k: ApiKey) => k.createdAt, (k: ApiKey) => k.id, s), limit)
    ensures PageOf(matches, limit).cursor.Some? <==> |s| > limit
  {
    hide Valid, SortKey, Gathered, IsRowFetch, Indexes;
    assert KeyPartition(t, organization, states(0));
    KeysIndexed(t, organization, states(0));
    SamePage(states, k => true, from, to, bound, matches, limit, states(0), OrganizationKeys(t, organization),
             (k: ApiKey) => k.createdAt, (k: ApiKey) => k.id, position, s);
  }

  // ----- a user's organizations: a join against a denormalized index -----

  /** organizations o JOIN memberships m WHERE m.user_id = ? AND m.status = 'active', by its membership. */
  function ActiveMemberships(t: Tables, user: string): set<Membership> {
    set m | m in RowsOf(t).memberships && m.userId == user && m.status == Active
  }

  /** o.created_at of a joined row. */
  function JoinedCreation(t: Tables, m: Membership): UtcTime {
    if m.organizationId in t.organizations then t.organizations[m.organizationId].createdAt else m.createdAt
  }

  ghost predicate UserPartition(t: Tables, user: string, index: map<string, Membership>) {
    && (forall k | k in t.memberships && t.memberships[k].gUser == user ::
          t.memberships[k].gOrgCreated in index && index[t.memberships[k].gOrgCreated] == t.memberships[k].membership)
    && (forall s | s in index :: exists k :: k in t.memberships && t.memberships[k].gUser == user
                                        && t.memberships[k].gOrgCreated == s && t.memberships[k].membership == index[s])
  }

  lemma UserOrganizationsIndexed(t: Tables, user: string, index: map<string, Membership>)
    requires Valid(t) && UserPartition(t, user, index)
    ensures Indexes(index, (m: Membership) => m.status == Active, ActiveMemberships(t, user),
                    (m: Membership) => JoinedCreation(t, m), (m: Membership) => m.organizationId)
  {
    hide SortKey, UsersOk, IdentitiesOk, OrganizationsOk, ApiKeysOk, AuditsOk, SessionsOk;
  }

  /**
   list_user_organizations: filtering the by-user index pages through the same rows, in the
   same order, as the join ordered by the organizations' creation.
   */
  lemma UserOrganizationPagesAgree(t: Tables, user: string, states: nat -> map<string, Membership>, from: nat, to: nat,
                                   bound: Option<string>, matches: seq<(string, Membership)>, limit: nat,
                                   position: Option<(UtcTime, string)>, s: seq<Membership>)
    requires Valid(t) && from < to && limit > 0
    requires forall n: nat :: UserPartition(t, user, states(n)) && states(n) == states(0)
    requires Gathered(states, (m: Membership) => m.status == Active, from, to, PositionKey(position), bound, matches)
    requires bound.Some? ==> |matches| >= limit + 1
    requires IsRowFetch(ActiveMemberships(t, user), (m: Membership) => JoinedCreation(t, m),
                        (m: Membership) => m.organizationId, position, limit + 1, s)
    ensures PageOf(matches, limit)
         == PageOf(WithKeys((m: Membership) => JoinedCreation(t, m), (m: Membership) => m.organizationId, s), limit)
    ensures PageOf(matches, limit).cursor.Some? <==> |s| > limit
  {
    hide Valid, SortKey, Gathered, IsRowFetch, Indexes;
    assert UserPartition(t, user, states(0));
    UserOrganizationsIndexed(t, user, states(0));
    SamePage(states, (m: Membership) => m.status == Active, from, to, bound, matches, limit, states(0),
             ActiveMemberships(t, user), (m: Membership) => JoinedCreation(t, m), (m: Membership) => m.organizationId,
             position, s);
  }

  // ----- reading a page's organizations back -----

  const BATCH_READ_MAX_ATTEMPTS: nat := 5

  datatype BatchAnswer = BatchAnswer(found: map<string, Organization>, unprocessed: seq<string>)

  /** A batch read answers each key, from committed items, or hands it back. */
  ghost predicate AnswersBatch(organizations: map<string, Organization>, keys: seq<string>, a: BatchAnswer) {
    && (forall k | k in a.found :: k in keys && k in organizations && a.found[k] == organizations[k])
    && (forall k | k in keys :: k in a.unprocessed || (k in organizations ==> k in a.found))
    && (forall k | k in a.unprocessed :: k in keys)
  }

  ghost predicate ServesBatches(server: (nat, seq<string>) -> BatchAnswer, organizations: map<string, Organization>) {
    forall n, keys :: AnswersBatch(organizations, keys, server(n, keys))
  }

  /** The keys still open after n requests. */
  function Leftover(server: (nat, seq<string>) -> BatchAnswer, ids: seq<string>, n: nat): seq<string> {
    if n == 0 then ids
    else
      var open := Leftover(server, ids, n - 1);
      if open == [] then [] else server(n - 1, open).unprocessed
  }

  /** What a request answered is not asked for again. */
  lemma LeftoversShrink(server: (nat, seq<string>) -> BatchAnswer, organizations: map<string, Organization>,
                        ids: seq<string>, n: nat)
    requires ServesBatches(server, organizations)
    ensures forall k | k in Leftover(server, ids, n + 1) :: k in Leftover(server, ids, n)
  {
    assert AnswersBatch(organizations, Leftover(server, ids, n), server(n, Leftover(server, ids, n)));
  }

  /**
   Reads a page's organizations in at most five batch requests, whatever keys each hands
   back, and returns them in page order; an incomplete read or a missing item is an error.
   */
  method ReadBackOrganizations(server: (nat, seq<string>) -> BatchAnswer, ghost organizations: map<string, Organization>,
                               ids: seq<string>)
      returns (result: Result<seq<Organization>, StorageError>)
    requires ServesBatches(server, organizations)
    ensures result.Ok? <==> Leftover(server, ids, 5) == [] && forall id | id in ids :: id in organizations
    ensures result.Ok? ==> |result.value| == |ids|
                           && forall i | 0 <= i < |ids| :: ids[i] in organizations && result.value[i] == organizations[ids[i]]
    ensures result.Err? ==> result.error == Failed
  {
    var remaining, found: map<string, Organization> := ids, map[];
    for n := 0 to BATCH_READ_MAX_ATTEMPTS
      invariant remaining == Leftover(server, ids, n)
      invariant forall k | k in found :: k in organizations && found[k] == organizations[k]
      invariant forall k | k in ids :: k in remaining || (k in organizations ==> k in found)
    {
      if remaining == [] {
        LeftoverStaysEmpty(server, ids, n, BATCH_READ_MAX_ATTEMPTS);
        break;
      }
      var answer := server(n, remaining);
      assert AnswersBatch(organizations, remaining, answer);
      found, remaining := found + answer.found, answer.unprocessed;
    }
    if remaining != [] {
      return Err(Failed);
    }
    var rows := [];
    for i := 0 to |ids|
      invariant |rows| == i
      invariant forall j | 0 <= j < i :: ids[j] in organizations && rows[j] == organizations[ids[j]]
    {
      if ids[i] !in found {
        return Err(Failed);
      }
      rows := rows + [found[ids[i]]];
    }
    result := Ok(rows);
  }

  lemma {:induction false} LeftoverStaysEmpty(server: (nat, seq<string>) -> BatchAnswer, ids: seq<string>, m: nat, n: nat)
    requires m <= n && Leftover(server, ids, m) == []
    ensures Leftover(server, ids, n) == []
  {
    if m < n {
      LeftoverStaysEmpty(server, ids, m, n - 1);
    }
  }

  // ----- a user's organizations, as both adapters return them -----

  /** SELECT o.* FROM organizations o JOIN memberships m WHERE m.user_id = ? AND m.status = 'active' */
  function JoinedOrganizations(r: Relational.Rows, user: string): set<Organization> {
    set o | o in r.organizations
            && exists m :: m in r.memberships && m.organizationId == o.id && m.userId == user && m.status == Active
  }

  function CreationOf(o: Organization): UtcTime {
    o.createdAt
  }

  function IdOf(o: Organization): string {
    o.id
  }

  /** The page of the SELECT, under its cursors. */
  function OrganizationPage(s: seq<Organization>, limit: nat): Page<Organization> {
    PageOf(WithKeys(CreationOf, IdOf, s), limit)
  }

  /** The joined organization and its one active membership of the user stand for each other. */
  lemma JoinedBy(t: Tables, user: string, o: Organization)
    requires Valid(t)
    ensures o in JoinedOrganizations(RowsOf(t), user) <==>
              && o.id in t.organizations && o == t.organizations[o.id]
              && (o.id, user) in t.memberships && t.memberships[(o.id, user)].membership.status == Active
    ensures o in JoinedOrganizations(RowsOf(t), user) ==>
              var m := t.memberships[(o.id, user)].membership;
              m in ActiveMemberships(t, user) && m.organizationId == o.id && JoinedCreation(t, m) == o.createdAt
  {
    hide SortKey, UsersOk, IdentitiesOk, ApiKeysOk, AuditsOk, SessionsOk;
    if (o.id, user) in t.memberships {
      assert t.memberships[(o.id, user)].membership in RowsOf(t).memberships;
    }
  }

  lemma ActiveIsJoined(t: Tables, user: string, m: Membership)
    requires Valid(t) && m in ActiveMemberships(t, user)
    ensures m.organizationId in t.organizations && (m.organizationId, user) in t.memberships
    ensures t.memberships[(m.organizationId, user)].membership == m
    ensures t.organizations[m.organizationId] in JoinedOrganizations(RowsOf(t), user)
    ensures t.organizations[m.organizationId].id == m.organizationId
    ensures JoinedCreation(t, m) == t.organizations[m.organizationId].createdAt
  {
    hide SortKey, UsersOk, IdentitiesOk, ApiKeysOk, AuditsOk, SessionsOk;
  }

  /** The memberships behind joined organizations. */
  ghost function MembershipsBehind(t: Tables, user: string, s: seq<Organization>): (ms: seq<Membership>)
    requires forall i | 0 <= i < |s| :: (s[i].id, user) in t.memberships
  {
    seq(|s|, i requires 0 <= i < |s| => t.memberships[(s[i].id, user)].membership)
  }

  /** A fetch of joined organizations is, row by row, a fetch of active memberships. */
  lemma OrganizationFetch(t: Tables, user: string, position: Option<(UtcTime, string)>, n: nat, s: seq<Organization>)
    requires Valid(t) && IsRowFetch(JoinedOrganizations(RowsOf(t), user), CreationOf, IdOf, position, n, s)
    ensures forall i | 0 <= i < |s| :: (s[i].id, user) in t.memberships
    ensures IsRowFetch(ActiveMemberships(t, user), (m: Membership) => JoinedCreation(t, m), (m: Membership) => m.organizationId,
                       position, n, MembershipsBehind(t, user, s))
  {
    hide Valid, SortKey, Encode, RowBefore, JoinedCreation, ActiveMemberships, JoinedOrganizations, RowsOf;
    forall o ensures o in s ==> o in JoinedOrganizations(RowsOf(t), user) {
    }
    forall i | 0 <= i < |s|
      ensures (s[i].id, user) in t.memberships
      ensures var m := t.memberships[(s[i].id, user)].membership;
              m in ActiveMemberships(t, user) && m.organizationId == s[i].id && JoinedCreation(t, m) == s[i].createdAt
    {
      JoinedBy(t, user, s[i]);
    }
    var ms := MembershipsBehind(t, user, s);
    forall m | m in ActiveMemberships(t, user) && RowAfter(position, JoinedCreation(t, m), m.organizationId)
      ensures m in ms || (|ms| == n > 0 && RowBefore(JoinedCreation(t, ms[n - 1]), ms[n - 1].organizationId,
                                                     JoinedCreation(t, m), m.organizationId))
    {
      ActiveIsJoined(t, user, m);
      var o := t.organizations[m.organizationId];
      if o in s {
        var i :| 0 <= i < |s| && s[i] == o;
        assert ms[i] == m;
      }
    }
  }

  /** The pages agree membership by membership, so the organizations read back are the SELECT's rows. */
  lemma ReadBackIsSelected(t: Tables, user: string, s: seq<Organization>, limit: nat, page: Page<Membership>,
                           answer: seq<Organization>)
    requires Valid(t) && forall i | 0 <= i < |s| :: s[i] in JoinedOrganizations(RowsOf(t), user)
    requires forall i | 0 <= i < |s| :: (s[i].id, user) in t.memberships
    requires page == PageOf(WithKeys((m: Membership) => JoinedCreation(t, m), (m: Membership) => m.organizationId,
                                     MembershipsBehind(t, user, s)), limit)
    requires |answer| == |page.items|
    requires forall i | 0 <= i < |answer| ::
               page.items[i].1.organizationId in t.organizations && answer[i] == t.organizations[page.items[i].1.organizationId]
    ensures Page(WithKeys(CreationOf, IdOf, answer), page.cursor) == OrganizationPage(s, limit)
  {
    hide Valid, SortKey, RowsOf, JoinedOrganizations, ActiveMemberships, JoinedCreation;
    var keyed := WithKeys(CreationOf, IdOf, s);
    forall i | 0 <= i < |s|
      ensures var m := t.memberships[(s[i].id, user)].membership;
              m.organizationId == s[i].id && JoinedCreation(t, m) == s[i].createdAt
      ensures s[i].id in t.organizations && t.organizations[s[i].id] == s[i]
    {
      JoinedBy(t, user, s[i]);
    }
    assert forall i | 0 <= i < |page.items| :: page.items[i].0 == keyed[i].0 && answer[i] == s[i];
  }

  function IdsOf(page: Page<Organization>): seq<string> {
    seq(|page.items|, i requires 0 <= i < |page.items| => page.items[i].1.id)
  }

  /** The page of memberships names the organizations of the SELECT's page, all of them there. */
  lemma PageNamesItsOrganizations(t: Tables, user: string, s: seq<Organization>, limit: nat, page: Page<Membership>)
    requires Valid(t) && forall i | 0 <= i < |s| :: s[i] in JoinedOrganizations(RowsOf(t), user)
    requires forall i | 0 <= i < |s| :: (s[i].id, user) in t.memberships
    requires page == PageOf(WithKeys((m: Membership) => JoinedCreation(t, m), (m: Membership) => m.organizationId,
                                     MembershipsBehind(t, user, s)), limit)
    ensures OrganizationIds(page.items) == IdsOf(OrganizationPage(s, limit))
    ensures forall i | 0 <= i < |page.items| :: page.items[i].1.organizationId in t.organizations
  {
    hide Valid, SortKey, RowsOf, JoinedOrganizations, ActiveMemberships, JoinedCreation;
    forall i | 0 <= i < |s|
      ensures t.memberships[(s[i].id, user)].membership.organizationId == s[i].id && s[i].id in t.organizations
    {
      JoinedBy(t, user, s[i]);
    }
    assert forall i | 0 <= i < |page.items| :: page.items[i].1.organizationId == s[i].id;
    assert forall i | 0 <= i < |page.items| :: OrganizationPage(s, limit).items[i].1 == s[i];
  }

  lemma FetchedRows(t: Tables, user: string, position: Option<(UtcTime, string)>, n: nat, s: seq<Organization>)
    requires IsRowFetch(JoinedOrganizations(RowsOf(t), user), CreationOf, IdOf, position, n, s)
    ensures forall i | 0 <= i < |s| :: s[i] in JoinedOrganizations(RowsOf(t), user)
  {
  }

  function OrganizationIds(items: seq<(string, Membership)>): (ids: seq<string>)
    ensures |ids| == |items| && forall i | 0 <= i < |ids| :: ids[i] == items[i].1.organizationId
  {
    if items == [] then [] else OrganizationIds(items[..|items| - 1]) + [items[|items| - 1].1.organizationId]
  }

  /**
   list_user_organizations: walks the by-user index for one membership more than the page
   holds, trims, and reads the page's organizations back. On a store at rest it returns the
   page of the SQL join, organization by organization and with the same cursor, however the
   queries and the batch reads are split, unless five batch reads do not suffice.
   */
  method ListUserOrganizations(server: (nat, Option<string>) -> Answer<Membership>,
                               ghost states: nat -> map<string, Membership>, first: nat, ghost end: nat,
                               batches: (nat, seq<string>) -> BatchAnswer, ghost t: Tables, user: string,
                               position: Option<(UtcTime, string)>, requested: int)
      returns (result: Result<Page<Organization>, StorageError>)
    requires Valid(t) && forall n: nat :: UserPartition(t, user, states(n)) && states(n) == states(0)
    requires Serves(server, states, (m: Membership) => m.status == Active) && ServesBatches(batches, t.organizations)
    requires first <= end && forall start :: server(end, start).last.None?
    ensures forall s | IsRowFetch(JoinedOrganizations(RowsOf(t), user), CreationOf, IdOf, position,
                                  ClampLimit(requested) + 1, s) ::
              var page := OrganizationPage(s, ClampLimit(requested));
              && (result.Ok? ==> result.value == page)
              && (result.Ok? <==> Leftover(batches, IdsOf(page), 5) == [])
    ensures result.Err? ==> result.error == Failed
  {
    hide Valid, SortKey, IsRowFetch, Gathered, JoinedOrganizations, RowsOf, PageOf;
    var limit := ClampLimit(requested);
    var matches, next, bound := QueryMatches(server, states, (m: Membership) => m.status == Active, first, end,
                                             PositionKey(position), limit + 1);
    var page := PageOf(matches, limit);
    var ids := OrganizationIds(page.items);
    var read := ReadBackOrganizations(batches, t.organizations, ids);
    result := if read.Ok? then Ok(Page(WithKeys(CreationOf, IdOf, read.value), page.cursor)) else Err(Failed);
    forall s | IsRowFetch(JoinedOrganizations(RowsOf(t), user), CreationOf, IdOf, position, limit + 1, s)
      ensures read.Ok? ==> Page(WithKeys(CreationOf, IdOf, read.value), page.cursor) == OrganizationPage(s, limit)
      ensures read.Ok? <==> Leftover(batches, IdsOf(OrganizationPage(s, limit)), 5) == []
    {
      OrganizationFetch(t, user, position, limit + 1, s);
      FetchedRows(t, user, position, limit + 1, s);
      UserOrganizationPagesAgree(t, user, states, first, next, bound, matches, limit, position, MembershipsBehind(t, user, s));
      PageNamesItsOrganizations(t, user, s, limit, page);
      if read.Ok? {
        ReadBackIsSelected(t, user, s, limit, page, read.value);
      }
    }
  }

  // ----- unpaged listings -----

  /** The rows, each once, ORDER BY created_at, id. */
  ghost predicate IsOrderedList<T(!new)>(rows: set<T>, created: T -> UtcTime, id: T -> string, s: seq<T>) {
    && (forall x :: x in s <==> x in rows)
    && forall i, j | 0 <= i < j < |s| :: RowBefore(created(s[i]), id(s[i]), created(s[j]), id(s[j]))
  }

  lemma OrderedListsNest<T(!new)>(rows: set<T>, created: T -> UtcTime, id: T -> string, s: seq<T>, s': seq<T>)
    requires IsOrderedList(rows, created, id, s) && IsOrderedList(rows, created, id, s')
    ensures |s| <= |s'| && s == s'[..|s|]
  {
    hide SortKey, Encode;
    forall a, x, b, y ensures RowBefore(a, x, b, y) <==> Before(SortKey(a, x), SortKey(b, y)) {
      RowOrderIsKeyOrder(a, x, b, y);
    }
    var keyed, keyed' := WithKeys(created, id, s), WithKeys(created, id, s');
    forall i | 0 <= i < |s| ensures keyed[i] in keyed' {
      assert s[i] in rows;
      var j :| 0 <= j < |s'| && s'[j] == s[i];
      assert keyed'[j] == keyed[i];
    }
    forall i | 0 <= i < |s'| ensures keyed'[i] in keyed {
      assert s'[i] in rows;
      var j :| 0 <= j < |s| && s[j] == s'[i];
      assert keyed[j] == keyed'[i];
    }
    ClosedIsPrefix(keyed', keyed);
    forall i | 0 <= i < |s| ensures s[i] == s'[i] {
      assert keyed[i] == keyed'[..|keyed|][i] && keyed[i].1 == s[i] && keyed'[i].1 == s'[i];
    }
  }

  lemma OrderedListIsUnique<T(!new)>(rows: set<T>, created: T -> UtcTime, id: T -> string, s: seq<T>, s': seq<T>)
    requires IsOrderedList(rows, created, id, s) && IsOrderedList(rows, created, id, s')
    ensures s == s'
  {
    hide IsOrderedList;
    OrderedListsNest(rows, created, id, s, s');
    OrderedListsNest(rows, created, id, s', s);
  }

  /**
   list_users_by_email: the sorted answer of the email index is the ordered answer of the scan
   exactly when no user of that address predates the index attribute.
   */
  lemma EmailListsAgree(t: Tables, email: string, listed: seq<User>, scanned: seq<User>)
    requires Valid(t)
    requires IsOrderedList(Reachable.EmailMatches(t, email), (u: User) => u.createdAt, (u: User) => u.id, listed)
    requires IsOrderedList(set u | u in RowsOf(t).users && u.email == email, (u: User) => u.createdAt, (u: User) => u.id, scanned)
    ensures listed == scanned <==> forall k | k in t.users && t.users[k].email == email :: t.users[k].gEmail.Some?
  {
    hide Valid, RowsOf, RowBefore, Reachable.EmailMatches;
    Reachable.EmailLookupIsScan(t, email);
    var index, scan := Reachable.EmailMatches(t, email), set u | u in RowsOf(t).users && u.email == email;
    if index == scan {
      OrderedListIsUnique(scan, (u: User) => u.createdAt, (u: User) => u.id, listed, scanned);
    } else {
      assert exists u :: u in index <==> u !in scan;
    }
  }
}
