/** The canonical scope list stored on a key and named in its audit event. */
module Scopes {
  import opened Text

  predicate Sorted(s: seq<string>) {
    forall i, j | 0 <= i < j < |s| :: Before(s[i], s[j])
  }

  /** Puts one scope at its place in a canonical list, unless it is there. */
  function Place(s: seq<string>, x: string): seq<string> {
    if s == [] then [x]
    else if x == s[0] then s
    else if Before(x, s[0]) then [x] + s
    else [s[0]] + Place(s[1..], x)
  }

  /** sorted(set(scopes)) */
  function NormalizeScopes(scopes: seq<string>): seq<string> {
    if scopes == [] then [] else Place(NormalizeScopes(scopes[..|scopes| - 1]), scopes[|scopes| - 1])
  }

  lemma {:induction false} PlaceKeepsOrder(s: seq<string>, x: string)
    requires Sorted(s)
    ensures Sorted(Place(s, x)) && forall y :: y in Place(s, x) <==> y in s || y == x
  {
    if s != [] {
      BeforeIsTotal(x, s[0]);
      if Before(x, s[0]) {
        forall j | 0 <= j < |s| ensures Before(x, s[j]) {
          if j > 0 {
            BeforeIsTransitive(x, s[0], s[j]);
          }
        }
      } else if x != s[0] {
        PlaceKeepsOrder(s[1..], x);
        assert s == [s[0]] + s[1..];
        forall y | y in Place(s[1..], x) ensures Before(s[0], y) {
          if y != x {
            var j :| 0 <= j < |s[1..]| && s[1..][j] == y;
            assert s[j + 1] == y;
          }
        }
      }
    }
  }

  /** The result is strictly ascending, without duplicates, and names the same scopes. */
  lemma {:induction false} NormalizedIsCanonical(scopes: seq<string>)
    ensures Sorted(NormalizeScopes(scopes))
    ensures forall y :: y in NormalizeScopes(scopes) <==> y in scopes
  {
    if scopes != [] {
      var front, last := scopes[..|scopes| - 1], scopes[|scopes| - 1];
      NormalizedIsCanonical(front);
      PlaceKeepsOrder(NormalizeScopes(front), last);
      assert scopes == front + [last];
    }
  }

  lemma {:induction false} SortedIsUnique(s: seq<string>, t: seq<string>)
    requires Sorted(s) && Sorted(t) && forall y :: y in s <==> y in t
    ensures s == t
  {
    if s == [] {
      assert forall i | 0 <= i < |t| :: t[i] in t;
    } else {
      assert s[0] in s && s[0] in t;
      var i :| 0 <= i < |t| && t[i] == s[0];
      assert t[0] in t && t[0] in s;
      var j :| 0 <= j < |s| && s[j] == t[0];
      BeforeIsIrreflexive(s[0]);
      if i > 0 && j > 0 {
        BeforeIsTransitive(t[0], s[0], t[0]);
        BeforeIsIrreflexive(t[0]);
      }
      assert s[0] == t[0];
      forall y ensures y in s[1..] <==> y in t[1..] {
        RestOf(s, y);
        RestOf(t, y);
      }
      SortedIsUnique(s[1..], t[1..]);
      assert s == [s[0]] + s[1..] && t == [t[0]] + t[1..];
    }
  }

  lemma RestOf(s: seq<string>, y: string)
    requires Sorted(s) && s != []
    ensures y in s[1..] <==> y in s && y != s[0]
  {
    BeforeIsIrreflexive(s[0]);
    assert s == [s[0]] + s[1..];
    if y in s[1..] {
      var j :| 0 <= j < |s[1..]| && s[1..][j] == y;
      assert s[j + 1] == y;
    }
  }

  /** Order and repetitions do not matter, and normalizing again changes nothing. */
  lemma SameScopesSameList(a: seq<string>, b: seq<string>)
    requires forall y :: y in a <==> y in b
    ensures NormalizeScopes(a) == NormalizeScopes(b) && NormalizeScopes(NormalizeScopes(a)) == NormalizeScopes(a)
  {
    NormalizedIsCanonical(a);
    NormalizedIsCanonical(b);
    NormalizedIsCanonical(NormalizeScopes(a));
    SortedIsUnique(NormalizeScopes(a), NormalizeScopes(b));
    SortedIsUnique(NormalizeScopes(NormalizeScopes(a)), NormalizeScopes(a));
  }
}
