/**
 Keyset pagination. A page is the first limit matches behind a cursor, found with one probe
 match more; the next page resumes behind the last match returned. Following the cursors to
 the end visits everything that stays exactly once and in order, whatever comes and goes.
 */
module Pagination {
  import opened Outcomes
  import opened Text

  const MIN_PAGE_LIMIT: int := 1
  const MAX_PAGE_LIMIT: int := 100

  function Distance(a: int, b: int): nat {
    if a < b then b - a else a - b
  }

  /** The admissible page size closest to the one asked for. */
  function ClampLimit(value: int): (limit: nat)
    ensures 1 <= limit <= 100
    ensures forall n | 1 <= n <= 100 :: Distance(value, limit) <= Distance(value, n)
  {
    if value < MIN_PAGE_LIMIT then MIN_PAGE_LIMIT else if value > MAX_PAGE_LIMIT then MAX_PAGE_LIMIT else value
  }

  // ----- one partition of an index, and what a query may answer -----

  predicate After(start: Option<string>, key: string) {
    start.None? || Before(start.value, key)
  }

  /** Not behind the bound; without a bound everything counts. */
  predicate UpTo(key: string, bound: Option<string>) {
    bound.None? || key == bound.value || Before(key, bound.value)
  }

  ghost predicate Ascending<T>(s: seq<(string, T)>) {
    forall i, j | 0 <= i < j < |s| :: Before(s[i].0, s[j].0)
  }

  /** The matches of one query, and the key it stopped at unless the partition ended. */
  datatype Answer<T> = Answer(items: seq<(string, T)>, last: Option<string>)

  /**
   A query evaluates a stretch of the partition behind start, of any length the server
   likes, and returns the stretch's matches in key order.
   */
  ghost predicate Answers<T>(index: map<string, T>, keep: T -> bool, start: Option<string>, a: Answer<T>) {
    && Ascending(a.items)
    && (a.last.Some? ==> After(start, a.last.value))
    && (forall i | 0 <= i < |a.items| ::
          && a.items[i].0 in index && index[a.items[i].0] == a.items[i].1 && keep(a.items[i].1)
          && After(start, a.items[i].0) && UpTo(a.items[i].0, a.last))
    && (forall k | k in index && keep(index[k]) && After(start, k) && UpTo(k, a.last) :: (k, index[k]) in a.items)
  }

  /** At every query of the interval the index has a match under the key, whatever else becomes of it. */
  ghost predicate Stays<T>(states: nat -> map<string, T>, keep: T -> bool, from: nat, to: nat, k: string) {
    forall n | from <= n < to :: k in states(n) && keep(states(n)[k])
  }

  ghost predicate Listed<T>(items: seq<(string, T)>, k: string) {
    exists i :: 0 <= i < |items| && items[i].0 == k
  }

  ghost predicate Seen<T>(states: nat -> map<string, T>, from: nat, to: nat, e: (string, T)) {
    exists n :: from <= n < to && e.0 in states(n) && states(n)[e.0] == e.1
  }

  /** items are matches behind resume and up to bound, in order, and miss none that stayed. */
  ghost predicate Gathered<T(!new)>(states: nat -> map<string, T>, keep: T -> bool, from: nat, to: nat,
                              resume: Option<string>, bound: Option<string>, items: seq<(string, T)>) {
    && Ascending(items)
    && (forall i | 0 <= i < |items| ::
          && After(resume, items[i].0) && UpTo(items[i].0, bound) && keep(items[i].1)
          && Seen(states, from, to, items[i]))
    && (forall k | Stays(states, keep, from, to, k) && After(resume, k) && UpTo(k, bound) :: Listed(items, k))
  }

  // ----- accumulating matches -----

  lemma FirstAnswer<T(!new)>(states: nat -> map<string, T>, keep: T -> bool, n: nat, resume: Option<string>, a: Answer<T>)
    requires Answers(states(n), keep, resume, a)
    ensures Gathered(states, keep, n, n + 1, resume, a.last, a.items)
    ensures a.last.Some? ==> After(resume, a.last.value)
  {
    forall k | Stays(states, keep, n, n + 1, k) && After(resume, k) && UpTo(k, a.last) ensures Listed(a.items, k) {
      assert (k, states(n)[k]) in a.items;
    }
  }

  lemma NextAnswer<T(!new)>(states: nat -> map<string, T>, keep: T -> bool, from: nat, n: nat, resume: Option<string>,
                      bound: string, items: seq<(string, T)>, a: Answer<T>)
    requires from <= n && Gathered(states, keep, from, n, resume, Some(bound), items) && After(resume, bound)
    requires Answers(states(n), keep, Some(bound), a)
    ensures Gathered(states, keep, from, n + 1, resume, a.last, items + a.items)
    ensures a.last.Some? ==> After(resume, a.last.value)
  {
    var all := items + a.items;
    forall i, j | 0 <= i < j < |all| ensures Before(all[i].0, all[j].0) {
      if i < |items| <= j {
        Through(all[i].0, bound, all[j].0);
      }
    }
    forall i | 0 <= i < |all|
      ensures After(resume, all[i].0) && UpTo(all[i].0, a.last) && keep(all[i].1)
      ensures Seen(states, from, n + 1, all[i])
    {
      if i < |items| {
        assert all[i] == items[i] && Seen(states, from, n, items[i]);
        var m :| from <= m < n && all[i].0 in states(m) && states(m)[all[i].0] == all[i].1;
        if a.last.Some? {
          Through(all[i].0, bound, a.last.value);
        }
      } else {
        assert all[i] == a.items[i - |items|];
        Behind(resume, bound, all[i].0);
        assert all[i].0 in states(n);
      }
    }
    forall k | Stays(states, keep, from, n + 1, k) && After(resume, k) && UpTo(k, a.last)
      ensures Listed(all, k)
    {
      BeforeIsTotal(k, bound);
      assert Stays(states, keep, from, n, k) && k in states(n) && keep(states(n)[k]);
      if UpTo(k, Some(bound)) {
        ListedInBoth(items, a.items, k);
      } else {
        assert (k, states(n)[k]) in a.items;
        ListedInBoth(items, a.items, k);
      }
    }
    if a.last.Some? {
      Behind(resume, bound, a.last.value);
    }
  }

  lemma ListedInBoth<T>(a: seq<(string, T)>, b: seq<(string, T)>, k: string)
    ensures Listed(a + b, k) <==> Listed(a, k) || Listed(b, k)
  {
    if i :| 0 <= i < |a| && a[i].0 == k {
      assert (a + b)[i].0 == k;
    }
    if i :| 0 <= i < |b| && b[i].0 == k {
      assert (a + b)[|a| + i].0 == k;
    }
  }

  lemma Through(a: string, b: string, c: string)
    requires (a == b || Before(a, b)) && Before(b, c)
    ensures Before(a, c)
  {
    if a != b {
      BeforeIsTransitive(a, b, c);
    }
  }

  lemma Behind(start: Option<string>, b: string, c: string)
    requires After(start, b) && Before(b, c)
    ensures After(start, c)
  {
    if start.Some? {
      BeforeIsTransitive(start.value, b, c);
    }
  }

  /** The server's n-th query is answered from the n-th state, whatever the start key. */
  ghost predicate Serves<T>(server: (nat, Option<string>) -> Answer<T>, states: nat -> map<string, T>, keep: T -> bool) {
    forall n, start :: Answers(states(n), keep, start, server(n, start))
  }

  /**
   Accumulates matches until there are enough or the partition ends. The queries are
   numbered from first; by the one numbered end at the latest the partition ends.
   */
  method QueryMatches<T(!new)>(server: (nat, Option<string>) -> Answer<T>, ghost states: nat -> map<string, T>,
                         ghost keep: T -> bool, first: nat, ghost end: nat, resume: Option<string>, stopAfter: nat)
      returns (items: seq<(string, T)>, next: nat, ghost bound: Option<string>)
    requires Serves(server, states, keep) && first <= end && forall start :: server(end, start).last.None?
    ensures first < next <= end + 1 && Gathered(states, keep, first, next, resume, bound, items)
    ensures bound.Some? ==> |items| >= stopAfter
  {
    hide Gathered, Answers, After;
    items, next := [], first;
    var start := resume;
    while true
      invariant first <= next <= end
      invariant next == first ==> items == [] && start == resume
      invariant next > first ==>
                  start.Some? && After(resume, start.value) && Gathered(states, keep, first, next, resume, start, items)
      decreases end - next
    {
      var answer := server(next, start);
      assert Answers(states(next), keep, start, answer);
      if next == first {
        FirstAnswer(states, keep, next, resume, answer);
        assert items + answer.items == answer.items;
      } else {
        NextAnswer(states, keep, first, next, resume, start.value, items, answer);
      }
      items, start, next := items + answer.items, answer.last, next + 1;
      if |items| >= stopAfter || start.None? {
        bound := start;
        return;
      }
    }
  }

  // ----- one page -----

  datatype Page<T> = Page(items: seq<(string, T)>, cursor: Option<string>)

  /** Trims the probe match and decides the cursor. */
  function PageOf<T>(matches: seq<(string, T)>, limit: nat): Page<T> {
    var hasMore := |matches| > limit;
    var items := if hasMore then matches[..limit] else matches;
    Page(items, if hasMore && items != [] then Some(items[|items| - 1].0) else None)
  }

  /** A page covers the keys behind resume up to its cursor, and everything without one. */
  ghost predicate Covers<T(!new)>(states: nat -> map<string, T>, keep: T -> bool, from: nat, to: nat,
                            resume: Option<string>, page: Page<T>) {
    && Gathered(states, keep, from, to, resume, page.cursor, page.items)
    && (page.cursor.Some? ==> page.items != [] && page.cursor == Some(page.items[|page.items| - 1].0))
  }

  /** A match was read behind the cursor, so following it is not in vain. */
  ghost predicate MoreBehind<T(!new)>(states: nat -> map<string, T>, keep: T -> bool, from: nat, to: nat, cursor: string) {
    exists e: (string, T) :: Seen(states, from, to, e) && keep(e.1) && Before(cursor, e.0)
  }

  lemma TrimmedPageCovers<T(!new)>(states: nat -> map<string, T>, keep: T -> bool, from: nat, to: nat,
                             resume: Option<string>, bound: Option<string>, matches: seq<(string, T)>, limit: nat)
    requires Gathered(states, keep, from, to, resume, bound, matches) && limit >= 1
    requires bound.Some? ==> |matches| >= limit + 1
    ensures Covers(states, keep, from, to, resume, PageOf(matches, limit))
    ensures PageOf(matches, limit).cursor.Some? ==> MoreBehind(states, keep, from, to, PageOf(matches, limit).cursor.value)
  {
    var page := PageOf(matches, limit);
    if |matches| > limit {
      assert Seen(states, from, to, matches[limit]);
      var cursor := matches[limit - 1].0;
      forall i | 0 <= i < limit ensures UpTo(matches[i].0, Some(cursor)) {
      }
      forall k | Stays(states, keep, from, to, k) && After(resume, k) && UpTo(k, Some(cursor))
        ensures Listed(page.items, k)
      {
        AheadOfBound(k, cursor, matches[limit].0, bound);
        var i :| 0 <= i < |matches| && matches[i].0 == k;
        if i >= limit {
          Through(k, cursor, matches[i].0);
          BeforeIsIrreflexive(k);
        }
        assert page.items[i].0 == k;
      }
    }
  }

  lemma AheadOfBound(k: string, cursor: string, probe: string, bound: Option<string>)
    requires UpTo(k, Some(cursor)) && Before(cursor, probe) && UpTo(probe, bound)
    ensures UpTo(k, bound)
  {
    Through(k, cursor, probe);
    if bound.Some? && probe != bound.value {
      BeforeIsTransitive(k, probe, bound.value);
    }
  }

  /** One list call: limit + 1 matches are asked for, limit are returned. */
  method ListPage<T(!new)>(server: (nat, Option<string>) -> Answer<T>, ghost states: nat -> map<string, T>,
                     ghost keep: T -> bool, first: nat, ghost end: nat, resume: Option<string>, requested: int)
      returns (page: Page<T>, next: nat)
    requires Serves(server, states, keep) && first <= end && forall start :: server(end, start).last.None?
    ensures first < next <= end + 1 && Covers(states, keep, first, next, resume, page)
    ensures |page.items| <= ClampLimit(requested) && (page.cursor.Some? ==> |page.items| == ClampLimit(requested))
    ensures page.cursor.Some? ==> MoreBehind(states, keep, first, next, page.cursor.value)
  {
    var limit := ClampLimit(requested);
    var items, n, bound := QueryMatches(server, states, keep, first, end, resume, limit + 1);
    TrimmedPageCovers(states, keep, first, n, resume, bound, items, limit);
    page, next := PageOf(items, limit), n;
  }

  // ----- a whole traversal -----

  /** One list call of a traversal: its queries are numbered from .. to. */
  datatype Visit<T> = Visit(page: Page<T>, from: nat, to: nat)

  function ResumeOf<T>(visits: seq<Visit<T>>, n: nat): Option<string>
    requires n <= |visits|
  {
    if n == 0 then None else visits[n - 1].page.cursor
  }

  /** Each call resumes at the cursor of the one before; only the last has none. */
  ghost predicate Follows<T(!new)>(states: nat -> map<string, T>, keep: T -> bool, visits: seq<Visit<T>>) {
    && visits != []
    && (forall n | 0 <= n < |visits| ::
          && visits[n].from < visits[n].to
          && (n > 0 ==> visits[n - 1].to <= visits[n].from)
          && Covers(states, keep, visits[n].from, visits[n].to, ResumeOf(visits, n), visits[n].page))
    && (forall n | 0 <= n < |visits| - 1 :: visits[n].page.cursor.Some?)
  }

  function Returned<T>(visits: seq<Visit<T>>): seq<(string, T)> {
    if visits == [] then [] else Returned(visits[..|visits| - 1]) + visits[|visits| - 1].page.items
  }

  lemma StaysWithin<T>(states: nat -> map<string, T>, keep: T -> bool, from: nat, to: nat, k: string, from': nat, to': nat)
    requires Stays(states, keep, from, to, k) && from <= from' && to' <= to
    ensures Stays(states, keep, from', to', k)
  {
  }

  lemma SeenWithin<T>(states: nat -> map<string, T>, from: nat, to: nat, e: (string, T), from': nat, to': nat)
    requires Seen(states, from, to, e) && from' <= from && to <= to'
    ensures Seen(states, from', to', e)
  {
  }

  lemma FollowsPrefix<T(!new)>(states: nat -> map<string, T>, keep: T -> bool, visits: seq<Visit<T>>)
    requires Follows(states, keep, visits) && |visits| > 1
    ensures Follows(states, keep, visits[..|visits| - 1])
  {
    var front := visits[..|visits| - 1];
    forall n | 0 <= n < |front|
      ensures Covers(states, keep, front[n].from, front[n].to, ResumeOf(front, n), front[n].page)
    {
      assert ResumeOf(front, n) == ResumeOf(visits, n) && front[n] == visits[n];
    }
  }

  lemma LastVisit<T(!new)>(states: nat -> map<string, T>, keep: T -> bool, visits: seq<Visit<T>>)
    requires Follows(states, keep, visits)
    ensures visits != []
    ensures var n := |visits| - 1;
            && Covers(states, keep, visits[n].from, visits[n].to, ResumeOf(visits, n), visits[n].page)
            && visits[n].from < visits[n].to
            && (n > 0 ==> visits[n - 1].to <= visits[n].from && ResumeOf(visits, n).Some?)
  {
    hide Covers;
    var n := |visits| - 1;
    if n > 0 {
      assert visits[n - 1].page.cursor.Some?;
    }
  }

  /** The pages so far, put together, cover everything up to the last cursor. */
  lemma {:induction false} PagesGather<T(!new)>(states: nat -> map<string, T>, keep: T -> bool, visits: seq<Visit<T>>)
    requires Follows(states, keep, visits)
    ensures Gathered(states, keep, visits[0].from, visits[|visits| - 1].to, None, visits[|visits| - 1].page.cursor,
                     Returned(visits))
  {
    hide Gathered, Follows;
    LastVisit(states, keep, visits);
    var n := |visits| - 1;
    var last := visits[n];
    if n == 0 {
      ReturnedOne(visits);
    } else {
      var front := visits[..n];
      FollowsPrefix(states, keep, visits);
      PagesGather(states, keep, front);
      StartsFirst(states, keep, front);
      GatherNext(states, keep, visits[0].from, visits[n - 1].to, last.from, last.to, visits[n - 1].page.cursor.value,
                 Returned(front), last.page);
    }
  }

  lemma ReturnedOne<T>(visits: seq<Visit<T>>)
    requires |visits| == 1
    ensures Returned(visits) == visits[0].page.items
  {
    assert visits[..0] == [];
    assert Returned(visits[..0]) == [];
  }

  lemma {:induction false} StartsFirst<T(!new)>(states: nat -> map<string, T>, keep: T -> bool, visits: seq<Visit<T>>)
    requires Follows(states, keep, visits)
    ensures visits[0].from < visits[|visits| - 1].to
  {
    if |visits| > 1 {
      FollowsPrefix(states, keep, visits);
      StartsFirst(states, keep, visits[..|visits| - 1]);
    }
  }

  lemma GatherNext<T(!new)>(states: nat -> map<string, T>, keep: T -> bool, from: nat, mid: nat, mid': nat, to: nat,
                            cursor: string, items: seq<(string, T)>, page: Page<T>)
    requires from <= mid <= mid' <= to && Gathered(states, keep, from, mid, None, Some(cursor), items)
    requires Covers(states, keep, mid', to, Some(cursor), page)
    ensures Gathered(states, keep, from, to, None, page.cursor, items + page.items)
  {
    var all := items + page.items;
    forall i, j | 0 <= i < j < |all| ensures Before(all[i].0, all[j].0) {
      if i < |items| <= j {
        assert After(Some(cursor), page.items[j - |items|].0);
        Through(all[i].0, cursor, all[j].0);
      }
    }
    if page.cursor.Some? {
      GatheredBound(states, keep, mid', to, cursor, page);
    }
    forall i | 0 <= i < |all|
      ensures UpTo(all[i].0, page.cursor) && keep(all[i].1) && Seen(states, from, to, all[i])
    {
      if i < |items| {
        assert all[i] == items[i];
        SeenWithin(states, from, mid, items[i], from, to);
        if page.cursor.Some? {
          UpToLater(all[i].0, cursor, page.cursor.value);
        }
      } else {
        assert all[i] == page.items[i - |items|];
        SeenWithin(states, mid', to, all[i], from, to);
      }
    }
    forall k | Stays(states, keep, from, to, k) && UpTo(k, page.cursor)
      ensures Listed(all, k)
    {
      StaysWithin(states, keep, from, to, k, from, mid);
      StaysWithin(states, keep, from, to, k, mid', to);
      BeforeIsTotal(k, cursor);
      ListedInBoth(items, page.items, k);
    }
  }

  /** A page's cursor lies behind the one it resumed from. */
  lemma GatheredBound<T(!new)>(states: nat -> map<string, T>, keep: T -> bool, from: nat, to: nat, resume: string,
                               page: Page<T>)
    requires Gathered(states, keep, from, to, Some(resume), page.cursor, page.items) && page.cursor.Some?
    ensures page.items != [] ==> Before(resume, page.cursor.value)
  {
    if page.items != [] {
      var k := page.items[0].0;
      assert After(Some(resume), k) && UpTo(k, page.cursor);
      if k != page.cursor.value {
        BeforeIsTransitive(resume, k, page.cursor.value);
      }
    }
  }

  lemma UpToLater(k: string, a: string, b: string)
    requires UpTo(k, Some(a)) && (a == b || Before(a, b))
    ensures UpTo(k, Some(b))
  {
    if a != b {
      Through(k, a, b);
    }
  }

  /** A traversal followed to its end. */
  ghost predicate Completes<T(!new)>(states: nat -> map<string, T>, keep: T -> bool, visits: seq<Visit<T>>) {
    Follows(states, keep, visits) && visits[|visits| - 1].page.cursor.None?
  }

  /**
   Traversal under concurrency: the items returned are strictly in order, each was there
   when it was read, and a match that stayed throughout is returned exactly once, even if
   its other attributes change meanwhile.
   */
  lemma TraversalVisitsOnce<T(!new)>(states: nat -> map<string, T>, keep: T -> bool, visits: seq<Visit<T>>)
    requires Completes(states, keep, visits)
    ensures var from, to := visits[0].from, visits[|visits| - 1].to;
            && Ascending(Returned(visits))
            && (forall i | 0 <= i < |Returned(visits)| ::
                  Seen(states, from, to, Returned(visits)[i]) && keep(Returned(visits)[i].1))
            && forall k | Stays(states, keep, from, to, k) ::
                 exists i :: 0 <= i < |Returned(visits)| && Returned(visits)[i].0 == k
                        && forall j | 0 <= j < |Returned(visits)| && j != i :: Returned(visits)[j].0 != k
  {
    hide Follows, Returned;
    LastVisit(states, keep, visits);
    var from, to, all := visits[0].from, visits[|visits| - 1].to, Returned(visits);
    PagesGather(states, keep, visits);
    forall k | Stays(states, keep, from, to, k)
      ensures exists i :: 0 <= i < |all| && all[i].0 == k && forall j | 0 <= j < |all| && j != i :: all[j].0 != k
    {
      assert Listed(all, k);
      var i :| 0 <= i < |all| && all[i].0 == k;
      BeforeIsIrreflexive(k);
    }
  }

  // ----- a store that does not change -----

  /** All matches of the partition in order. */
  ghost predicate IsListing<T>(index: map<string, T>, keep: T -> bool, s: seq<(string, T)>) {
    && Ascending(s)
    && (forall i | 0 <= i < |s| :: s[i].0 in index && index[s[i].0] == s[i].1 && keep(s[i].1))
    && (forall k | k in index && keep(index[k]) :: (k, index[k]) in s)
  }

  /** On a fixed store the pages put together are exactly the ordered list of matches. */
  lemma TraversalIsListing<T(!new)>(states: nat -> map<string, T>, keep: T -> bool, visits: seq<Visit<T>>,
                                    index: map<string, T>)
    requires Completes(states, keep, visits) && forall n: nat :: states(n) == index
    ensures IsListing(index, keep, Returned(visits))
  {
    hide Follows, Returned;
    LastVisit(states, keep, visits);
    var from, to, all := visits[0].from, visits[|visits| - 1].to, Returned(visits);
    PagesGather(states, keep, visits);
    forall i | 0 <= i < |all| ensures all[i].0 in index && index[all[i].0] == all[i].1 {
      assert Seen(states, from, to, all[i]);
    }
    forall k | k in index && keep(index[k]) ensures (k, index[k]) in all {
      assert Stays(states, keep, from, to, k);
      var i :| 0 <= i < |all| && all[i].0 == k;
      assert Seen(states, from, to, all[i]);
    }
  }

  // ----- the SQL page -----

  /** SELECT … WHERE position > resume ORDER BY position LIMIT n. */
  ghost predicate IsFetch<T>(index: map<string, T>, keep: T -> bool, resume: Option<string>, n: nat, s: seq<(string, T)>) {
    && Ascending(s) && |s| <= n
    && (forall i | 0 <= i < |s| ::
          s[i].0 in index && index[s[i].0] == s[i].1 && keep(s[i].1) && After(resume, s[i].0))
    && (forall k | k in index && keep(index[k]) && After(resume, k) ::
          (k, index[k]) in s || (|s| == n > 0 && Before(s[n - 1].0, k)))
  }

  /** Nothing of all is missing from s ahead of s's end. */
  ghost predicate Closed<T>(all: seq<(string, T)>, s: seq<(string, T)>) {
    forall i | 0 <= i < |all| && s != [] && Before(all[i].0, s[|s| - 1].0) :: all[i] in s
  }

  lemma FrontIsClosed<T>(all: seq<(string, T)>, s: seq<(string, T)>)
    requires Ascending(s) && s != [] && Closed(all, s)
    ensures Closed(all, s[..|s| - 1])
  {
    var m := |s| - 1;
    var front := s[..m];
    forall i | 0 <= i < |all| && front != [] && Before(all[i].0, front[m - 1].0) ensures all[i] in front {
      BeforeIsTransitive(all[i].0, s[m - 1].0, s[m].0);
      BeforeIsIrreflexive(s[m].0);
      var j :| 0 <= j < |s| && s[j] == all[i];
      assert front[j] == all[i];
    }
  }

  lemma NothingInBetween<T>(all: seq<(string, T)>, s: seq<(string, T)>, m: nat, j: nat)
    requires Ascending(all) && Ascending(s) && |s| == m + 1 && Closed(all, s)
    requires m <= j < |all| && all[j] == s[m] && s[..m] == all[..m]
    ensures j == m
  {
    assert forall i | 0 <= i < m :: all[..m][i] == s[..m][i];
    if m < j {
      assert all[m] in s;
      BeforeIsIrreflexive(all[m].0);
    }
  }

  lemma LastFits<T>(all: seq<(string, T)>, s: seq<(string, T)>, m: nat)
    requires Ascending(all) && Ascending(s) && |s| == m + 1 && s[m] in all && Closed(all, s)
    requires m <= |all| && s[..m] == all[..m]
    ensures m < |all| && s[m] == all[m]
  {
    hide Closed;
    var j :| 0 <= j < |all| && all[j] == s[m];
    if j < m {
      assert s[..m][j] == all[..m][j];
      BeforeIsIrreflexive(s[m].0);
    } else {
      NothingInBetween(all, s, m, j);
    }
  }

  /** Of two ordered lists, the one that leaves nothing out before its end is a prefix. */
  lemma {:induction false} ClosedIsPrefix<T>(all: seq<(string, T)>, s: seq<(string, T)>)
    requires Ascending(all) && Ascending(s) && Closed(all, s) && forall i | 0 <= i < |s| :: s[i] in all
    ensures |s| <= |all| && s == all[..|s|]
  {
    hide Closed;
    if s != [] {
      var m := |s| - 1;
      FrontIsClosed(all, s);
      ClosedIsPrefix(all, s[..m]);
      LastFits(all, s, m);
      assert s == s[..m] + [s[m]];
    }
  }

  lemma FetchesNest<T>(index: map<string, T>, keep: T -> bool, resume: Option<string>, n: nat,
                       s: seq<(string, T)>, s': seq<(string, T)>)
    requires IsFetch(index, keep, resume, n, s) && IsFetch(index, keep, resume, n, s')
    requires forall i | 0 <= i < |s| :: s[i] in s'
    ensures s == s'
  {
    forall i | 0 <= i < |s'| && s != [] && Before(s'[i].0, s[|s| - 1].0) ensures s'[i] in s {
      if |s| == n && Before(s[n - 1].0, s'[i].0) {
        BeforeIsTransitive(s'[i].0, s[n - 1].0, s'[i].0);
        BeforeIsIrreflexive(s'[i].0);
      }
    }
    ClosedIsPrefix(s', s);
    if |s| < |s'| {
      var e := s'[|s|];
      assert e in s;
      var i :| 0 <= i < |s| && s[i] == e;
      assert s'[i] == e;
      BeforeIsIrreflexive(e.0);
      assert false;
    }
  }

  lemma FetchIsUnique<T>(index: map<string, T>, keep: T -> bool, resume: Option<string>, n: nat,
                         s: seq<(string, T)>, s': seq<(string, T)>)
    requires IsFetch(index, keep, resume, n, s) && IsFetch(index, keep, resume, n, s')
    ensures s == s'
  {
    if forall i | 0 <= i < |s| :: s[i] in s' {
      FetchesNest(index, keep, resume, n, s, s');
    } else {
      var i :| 0 <= i < |s| && s[i] !in s';
      assert Before(s'[n - 1].0, s[i].0) && |s'| == n;
      forall j | 0 <= j < |s'| ensures s'[j] in s {
        LaterFetched(s, s', i, j, n);
      }
      FetchesNest(index, keep, resume, n, s', s);
    }
  }

  lemma LaterFetched<T>(s: seq<(string, T)>, s': seq<(string, T)>, i: nat, j: nat, n: nat)
    requires Ascending(s) && Ascending(s') && |s'| == n > 0 && |s| <= n && i < |s| && j < n
    requires Before(s'[n - 1].0, s[i].0)
    ensures !(|s| == n && Before(s[n - 1].0, s'[j].0))
  {
    if |s| == n && Before(s[n - 1].0, s'[j].0) {
      UpToEnd(s', j);
      UpToEnd(s, i);
      var top := s[n - 1].0;
      Through(s'[j].0, s'[n - 1].0, s[i].0);
      if s[i].0 != top { BeforeIsTransitive(s'[j].0, s[i].0, top); }
      BeforeIsTransitive(top, s'[j].0, top);
      BeforeIsIrreflexive(top);
    }
  }

  lemma UpToEnd<T>(s: seq<(string, T)>, i: nat)
    requires Ascending(s) && i < |s|
    ensures s[i].0 == s[|s| - 1].0 || Before(s[i].0, s[|s| - 1].0)
  {
  }

  lemma GatheredFetch<T(!new)>(states: nat -> map<string, T>, keep: T -> bool, from: nat, to: nat, resume: Option<string>,
                               bound: Option<string>, matches: seq<(string, T)>, n: nat, index: map<string, T>)
    requires from < to && (forall m: nat :: states(m) == index) && n > 0
    requires Gathered(states, keep, from, to, resume, bound, matches) && (bound.Some? ==> |matches| >= n)
    ensures IsFetch(index, keep, resume, n, if |matches| > n then matches[..n] else matches)
  {
    var s := if |matches| > n then matches[..n] else matches;
    forall i | 0 <= i < |s| ensures s[i].0 in index && index[s[i].0] == s[i].1 {
      assert s[i] == matches[i] && Seen(states, from, to, matches[i]);
    }
    forall k | k in index && keep(index[k]) && After(resume, k)
      ensures (k, index[k]) in s || (|s| == n && Before(s[n - 1].0, k))
    {
      assert Stays(states, keep, from, to, k);
      if UpTo(k, bound) {
        var i :| 0 <= i < |matches| && matches[i].0 == k;
        assert Seen(states, from, to, matches[i]);
        assert i < |s| ==> s[i] == matches[i];
      } else {
        BeforeIsTotal(k, bound.value);
        Through(s[n - 1].0, bound.value, k);
      }
    }
  }

  /** A fetch misses nothing up to its last row, and nothing at all when it came back short. */
  lemma FetchGathers<T(!new)>(states: nat -> map<string, T>, keep: T -> bool, n: nat, resume: Option<string>, count: nat,
                              s: seq<(string, T)>)
    requires count > 0 && IsFetch(states(n), keep, resume, count, s)
    ensures var bound := if |s| == count then Some(s[count - 1].0) else None;
            Gathered(states, keep, n, n + 1, resume, bound, s)
  {
    var bound := if |s| == count then Some(s[count - 1].0) else None;
    forall i | 0 <= i < |s| ensures UpTo(s[i].0, bound) && Seen(states, n, n + 1, s[i]) {
      UpToEnd(s, i);
      assert s[i].0 in states(n);
    }
    forall k | Stays(states, keep, n, n + 1, k) && After(resume, k) && UpTo(k, bound) ensures Listed(s, k) {
      assert k in states(n) && keep(states(n)[k]);
      if bound.Some? && Before(bound.value, k) {
        BeforeIsIrreflexive(k);
        if k != bound.value {
          BeforeIsTransitive(k, bound.value, k);
        }
      }
      assert (k, states(n)[k]) in s;
    }
  }

  lemma FetchedAtMost<T>(index: map<string, T>, keep: T -> bool, resume: Option<string>, n: nat, s: seq<(string, T)>)
    requires IsFetch(index, keep, resume, n, s)
    ensures |s| <= n
  {
  }

  /** A page of the relational form covers what a page must, so its traversals are traversals too. */
  lemma FetchedPageCovers<T(!new)>(states: nat -> map<string, T>, keep: T -> bool, n: nat, resume: Option<string>,
                                   limit: nat, s: seq<(string, T)>)
    requires limit >= 1 && IsFetch(states(n), keep, resume, limit + 1, s)
    ensures Covers(states, keep, n, n + 1, resume, PageOf(s, limit))
    ensures PageOf(s, limit).cursor.Some? ==> MoreBehind(states, keep, n, n + 1, PageOf(s, limit).cursor.value)
  {
    hide IsFetch, Gathered, Covers;
    FetchedAtMost(states(n), keep, resume, limit + 1, s);
    FetchGathers(states, keep, n, resume, limit + 1, s);
    TrimmedPageCovers(states, keep, n, n + 1, resume, if |s| == limit + 1 then Some(s[limit].0) else None, s, limit);
  }

  /** One SELECT of a traversal: the rows fetched at one point, and the page size asked for. */
  datatype Select<T> = Select(fetched: seq<(string, T)>, at: nat, limit: nat)

  function VisitOf<T>(q: Select<T>): Visit<T> {
    Visit(PageOf(q.fetched, q.limit), q.at, q.at + 1)
  }

  function VisitsOf<T>(selects: seq<Select<T>>): seq<Visit<T>> {
    seq(|selects|, i requires 0 <= i < |selects| => VisitOf(selects[i]))
  }

  /** SELECTs at successive points, each behind the cursor of the page before, until a page has none. */
  ghost predicate SelectsThrough<T>(states: nat -> map<string, T>, keep: T -> bool, selects: seq<Select<T>>) {
    && selects != []
    && (forall n | 0 <= n < |selects| ::
          && selects[n].limit >= 1
          && (n > 0 ==> selects[n - 1].at < selects[n].at)
          && IsFetch(states(selects[n].at), keep, ResumeOf(VisitsOf(selects), n), selects[n].limit + 1, selects[n].fetched)
          && (VisitOf(selects[n]).page.cursor.None? <==> n == |selects| - 1))
  }

  lemma SelectCovers<T(!new)>(states: nat -> map<string, T>, keep: T -> bool, selects: seq<Select<T>>, n: nat)
    requires SelectsThrough(states, keep, selects) && n < |selects|
    ensures var visits := VisitsOf(selects);
            && Covers(states, keep, visits[n].from, visits[n].to, ResumeOf(visits, n), visits[n].page)
            && (visits[n].page.cursor.None? <==> n == |visits| - 1)
            && (n > 0 ==> visits[n - 1].to <= visits[n].from)
  {
    hide IsFetch, Covers, PageOf, ResumeOf;
    FetchedPageCovers(states, keep, selects[n].at, ResumeOf(VisitsOf(selects), n), selects[n].limit, selects[n].fetched);
  }

  lemma SelectsFollow<T(!new)>(states: nat -> map<string, T>, keep: T -> bool, selects: seq<Select<T>>)
    requires SelectsThrough(states, keep, selects)
    ensures Completes(states, keep, VisitsOf(selects))
  {
    hide IsFetch, Covers, PageOf, ResumeOf, SelectsThrough;
    SomethingSelected(states, keep, selects);
    var visits := VisitsOf(selects);
    forall n | 0 <= n < |visits|
      ensures Covers(states, keep, visits[n].from, visits[n].to, ResumeOf(visits, n), visits[n].page)
      ensures visits[n].page.cursor.None? <==> n == |visits| - 1
      ensures n > 0 ==> visits[n - 1].to <= visits[n].from
    {
      SelectCovers(states, keep, selects, n);
    }
  }

  /** Traversal under concurrency holds for the relational pages as it does for the index walks. */
  lemma SelectedTraversalVisitsOnce<T(!new)>(states: nat -> map<string, T>, keep: T -> bool, selects: seq<Select<T>>)
    requires SelectsThrough(states, keep, selects)
    ensures var from, to, all := selects[0].at, selects[|selects| - 1].at + 1, Returned(VisitsOf(selects));
            && Ascending(all)
            && (forall i | 0 <= i < |all| :: Seen(states, from, to, all[i]) && keep(all[i].1))
            && forall k | Stays(states, keep, from, to, k) ::
                 exists i :: 0 <= i < |all| && all[i].0 == k && forall j | 0 <= j < |all| && j != i :: all[j].0 != k
  {
    hide SelectsThrough, Completes, Returned, Ascending, Stays, Seen;
    SelectsFollow(states, keep, selects);
    assert selects != [] by { SomethingSelected(states, keep, selects); }
    TraversalVisitsOnce(states, keep, VisitsOf(selects));
  }

  lemma SomethingSelected<T>(states: nat -> map<string, T>, keep: T -> bool, selects: seq<Select<T>>)
    requires SelectsThrough(states, keep, selects)
    ensures selects != []
  {
  }

  /**
   Page parity: for any batching of the query, the page is the one built from the SQL fetch
   of limit + 1 rows: same items, same answer to whether there are more.
   */
  lemma PageParity<T(!new)>(states: nat -> map<string, T>, keep: T -> bool, from: nat, to: nat, resume: Option<string>,
                            bound: Option<string>, matches: seq<(string, T)>, limit: nat, index: map<string, T>,
                            fetched: seq<(string, T)>)
    requires from < to && (forall n: nat :: states(n) == index)
    requires Gathered(states, keep, from, to, resume, bound, matches) && (bound.Some? ==> |matches| >= limit + 1)
    requires IsFetch(index, keep, resume, limit + 1, fetched)
    ensures PageOf(matches, limit) == PageOf(fetched, limit)
  {
    hide IsFetch, Gathered;
    var trimmed := if |matches| > limit + 1 then matches[..limit + 1] else matches;
    GatheredFetch(states, keep, from, to, resume, bound, matches, limit + 1, index);
    FetchIsUnique(index, keep, resume, limit + 1, trimmed, fetched);
    if |matches| > limit + 1 {
      assert trimmed[..limit] == matches[..limit];
    }
  }
}
