/**
 Composite text keys: the partition keys of the unique-constraint table and the sort
 keys of the listing indexes.
 */
module Keys {
  import opened Outcomes
  import opened Text
  import opened Timestamps
  import opened Domain

  /** One entry of the unique-constraint table, before it is rendered as text. */
  datatype ConstraintKey =
    | SlugKey(slug: string)
    | IdentityKey(identity: string)
    | SegmentKey(segment: string)
    | MembershipIdKey(membershipId: string)

  function KindLabel(key: ConstraintKey): string {
    match key
    case SlugKey(_) => "organization_slug"
    case IdentityKey(_) => "external_identity"
    case SegmentKey(_) => "api_key_id"
    case MembershipIdKey(_) => "membership_id"
  }

  function KeyValue(key: ConstraintKey): string {
    match key
    case SlugKey(v) => v
    case IdentityKey(v) => v
    case SegmentKey(v) => v
    case MembershipIdKey(v) => v
  }

  function ConstraintText(key: ConstraintKey): string {
    KindLabel(key) + "#" + KeyValue(key)
  }

  function ProviderLabel(p: Provider): string {
    match p
    case Cognito => "cognito"
    case Shopify => "shopify"
    case Google => "google"
    case Microsoft => "microsoft"
    case Oidc => "oidc"
  }

  function IdentityText(provider: Provider, subject: string, tenant: Option<Tenant>): string {
    ProviderLabel(provider) + "#" + (subject + "#" + TenantText(tenant))
  }

  function SortKey(createdAt: UtcTime, id: string): string {
    Encode(createdAt) + ("#" + id)
  }

  lemma {:induction false} FirstHashSplits(p: string, q: string, a: string, b: string)
    requires '#' !in p && '#' !in q && p + "#" + a == q + "#" + b
    ensures p == q && a == b
  {
    var s, t := p + "#" + a, q + "#" + b;
    assert s[|p|] == '#' && t[|q|] == '#';
    assert forall i :: 0 <= i < |p| ==> s[i] == p[i];
    assert forall i :: 0 <= i < |q| ==> t[i] == q[i];
    assert |p| == |q|;
    assert p == s[..|p|] && q == t[..|q|];
    assert a == s[|p| + 1..] && b == t[|q| + 1..];
  }

  lemma LastHashSplits(a: string, b: string, p: string, q: string)
    requires '#' !in p && '#' !in q && a + "#" + p == b + "#" + q
    ensures p == q && a == b
  {
    var s, t := a + "#" + p, b + "#" + q;
    assert s[|a|] == '#' && t[|b|] == '#';
    assert forall i :: |a| < i < |s| ==> s[i] == p[i - |a| - 1];
    assert forall i :: |b| < i < |t| ==> t[i] == q[i - |b| - 1];
    assert |a| == |b|;
    assert a == s[..|a|] && b == t[..|b|];
    assert p == s[|a| + 1..] && q == t[|b| + 1..];
  }

  /** A constraint's partition key names its kind, as the stored items do. */
  lemma ConstraintTextsNameTheirKind(v: string)
    ensures ConstraintText(SlugKey(v)) == "organization_slug#" + v
    ensures ConstraintText(IdentityKey(v)) == "external_identity#" + v
    ensures ConstraintText(SegmentKey(v)) == "api_key_id#" + v
    ensures ConstraintText(MembershipIdKey(v)) == "membership_id#" + v
  {
    assert "organization_slug" + "#" == "organization_slug#" && "external_identity" + "#" == "external_identity#";
    assert "api_key_id" + "#" == "api_key_id#" && "membership_id" + "#" == "membership_id#";
  }

  /** An identity text reads provider, subject and tenant, the tenant empty when there is none. */
  lemma IdentityTextsReadInOrder(s: string, t: Tenant)
    ensures IdentityText(Cognito, s, None) == "cognito#" + s + "#"
    ensures IdentityText(Shopify, s, Some(t)) == "shopify#" + s + "#" + t
    ensures IdentityText(Google, s, Some(t)) == "google#" + s + "#" + t
    ensures IdentityText(Microsoft, s, Some(t)) == "microsoft#" + s + "#" + t
    ensures IdentityText(Oidc, s, Some(t)) == "oidc#" + s + "#" + t
  {
    assert "cognito" + "#" == "cognito#" && "shopify" + "#" == "shopify#" && "google" + "#" == "google#";
    assert "microsoft" + "#" == "microsoft#" && "oidc" + "#" == "oidc#";
  }

  /** A sort key can be taken apart: the creation time is in front, the id behind the separator. */
  lemma SortKeysComeApart(createdAt: UtcTime, id: string)
    ensures var k := SortKey(createdAt, id);
            |k| == 28 + |id| && Decode(k[..27]) == Some(createdAt) && k[27] == '#' && k[28..] == id
  {
    hide Encode, Decode;
    DecodeInvertsEncode(createdAt);
    assert SortKey(createdAt, id)[..27] == Encode(createdAt);
  }

  /** Distinct constraints never share a partition key, whatever text they guard. */
  lemma ConstraintTextIsInjective(k: ConstraintKey, l: ConstraintKey)
    requires ConstraintText(k) == ConstraintText(l)
    ensures k == l
  {
    FirstHashSplits(KindLabel(k), KindLabel(l), KeyValue(k), KeyValue(l));
    assert KindLabel(k)[0] == KindLabel(l)[0];
  }

  /** With tenants free of '#', one identity text stands for one tuple. */
  lemma IdentityTextIsInjective(p: Provider, s: string, t: Option<Tenant>, p': Provider, s': string, t': Option<Tenant>)
    requires '#' !in TenantText(t) && '#' !in TenantText(t')
    requires IdentityText(p, s, t) == IdentityText(p', s', t')
    ensures p == p' && s == s' && t == t'
  {
    SameProvider(p, s, t, p', s', t');
    LastHashSplits(s, s', TenantText(t), TenantText(t'));
  }

  lemma SameProvider(p: Provider, s: string, t: Option<Tenant>, p': Provider, s': string, t': Option<Tenant>)
    requires IdentityText(p, s, t) == IdentityText(p', s', t')
    ensures p == p' && s + "#" + TenantText(t) == s' + "#" + TenantText(t')
  {
    FirstHashSplits(ProviderLabel(p), ProviderLabel(p'), s + "#" + TenantText(t), s' + "#" + TenantText(t'));
    assert |ProviderLabel(p)| == |ProviderLabel(p')| && ProviderLabel(p)[0] == ProviderLabel(p')[0];
  }

  /** Another tuple with a non-empty subject renders to the same identity text. */
  ghost predicate SharesItsText(p: Provider, s: string, t: Option<Tenant>) {
    exists p', s', t' :: s' != "" && (p', s', t') != (p, s, t) && IdentityText(p', s', t') == IdentityText(p, s, t)
  }

  /**
   Without the restriction on tenants the text is ambiguous for exactly the tuples that
   carry a '#' in the tenant or behind the subject's first character.
   */
  lemma IdentityTextAmbiguity(p: Provider, s: string, t: Option<Tenant>)
    requires s != ""
    ensures SharesItsText(p, s, t) <==> '#' in s[1..] || '#' in TenantText(t)
  {
    if '#' in s[1..] {
      var i :| 0 <= i < |s| - 1 && s[1..][i] == '#';
      SplitElsewhere(p, s, t, i + 1);
    } else if '#' in TenantText(t) {
      var i :| 0 <= i < |TenantText(t)| && TenantText(t)[i] == '#';
      SplitElsewhere(p, s, t, |s| + 1 + i);
    } else if SharesItsText(p, s, t) {
      var p', s', t' :| s' != "" && (p', s', t') != (p, s, t) && IdentityText(p', s', t') == IdentityText(p, s, t);
      SameProvider(p, s, t, p', s', t');
      OnlySplit(s, s', TenantText(t), TenantText(t'));
      assert false;
    }
  }

  lemma OnlySplit(s: string, s': string, t: string, t': string)
    requires s != "" && s' != "" && '#' !in s[1..] && '#' !in t
    requires s + "#" + t == s' + "#" + t'
    ensures s == s' && t == t'
  {
    var body := s + "#" + t;
    assert body[|s'|] == '#' by {
      assert (s' + "#" + t')[|s'|] == '#';
    }
    assert forall i :: 0 < i < |s| ==> body[i] == s[1..][i - 1];
    assert forall i :: |s| < i < |body| ==> body[i] == t[i - |s| - 1];
    assert |s'| == |s|;
    assert body == s + ("#" + t) && body == s' + ("#" + t');
    EqualWidthParts(s, s', "#" + t, "#" + t');
    EqualWidthParts("#", "#", t, t');
  }

  lemma SplitElsewhere(p: Provider, s: string, t: Option<Tenant>, at: nat)
    requires 0 < at < |s + "#" + TenantText(t)| && at != |s| && (s + "#" + TenantText(t))[at] == '#'
    ensures SharesItsText(p, s, t)
  {
    var body := s + "#" + TenantText(t);
    var s' := body[..at];
    var t': Option<Tenant> := if body[at + 1..] == "" then None else Some(body[at + 1..]);
    assert body == s' + "#" + TenantText(t');
    assert |s'| == at && (p, s', t') != (p, s, t);
    assert IdentityText(p, s', t') == IdentityText(p, s, t);
  }

  /** Sort keys compare exactly as (created_at, id), and name that pair uniquely. */
  lemma SortKeyOrder(a: UtcTime, x: string, b: UtcTime, y: string)
    ensures Before(SortKey(a, x), SortKey(b, y)) <==> Earlier(a, b) || (a == b && Before(x, y))
    ensures SortKey(a, x) == SortKey(b, y) <==> a == b && x == y
  {
    DecodeInvertsEncode(a);
    DecodeInvertsEncode(b);
    EncodeKeepsOrder(a, b);
    EqualWidthPrefixes(Encode(a), Encode(b), "#" + x, "#" + y);
    EqualWidthPrefixes("#", "#", x, y);
    if SortKey(a, x) == SortKey(b, y) {
      EqualWidthParts(Encode(a), Encode(b), "#" + x, "#" + y);
      EqualWidthParts("#", "#", x, y);
    }
    assert !Before("#", "#");
  }
}
