/** Tenant identifiers. */
module TenantIds {
  import opened Text

  predicate IsIdChar(c: char) {
    'a' <= c <= 'z' || 'A' <= c <= 'Z' || IsDigit(c) || c == '.' || c == '_' || c == '-'
  }

  predicate Validated(id: string) {
    1 <= |id| <= 255 && forall i :: 0 <= i < |id| ==> IsIdChar(id[i])
  }

  /** An identifier of 1 to 255 letters, digits, dots, underscores and dashes, in lower case. */
  function NewTenantID(id: string): Outcome<string> {
    if Validated(id) then Ok(Lower(id)) else Err("invalid tenant ID")
  }

  /** The value of a tenant identifier. */
  ghost predicate IsTenantID(v: string) {
    exists id :: NewTenantID(id) == Ok(v)
  }

  /** Between 1 and 255 characters are accepted. */
  lemma AcceptedLengths(n: nat)
    ensures NewTenantID(seq(n, _ => 'a')).Ok? <==> 1 <= n <= 255
  {
    assert |seq(n, _ => 'a')| == n;
  }

  /** Letters, digits, dots, underscores and dashes are, and letters come out in lower case; nothing that separates
      is. */
  lemma AcceptedCharacters(c: char)
    requires c in {' ', ':', '/', '\\', '\'', '"', ';', ',', '(', ')', '=', '*', '%', '@', '\n', '\0'}
    ensures NewTenantID("az.AZ_09-") == Ok("az.az_09-") && NewTenantID([c]).Err?
  {
    var v := "az.az_09-";
    assert Lower("az.AZ_09-") == v;
    assert [c][0] == c && !IsIdChar(c);
  }

  /** A tenant identifier survives a second validation unchanged, and no character of it can end a key part, a word or a
      quoted literal. */
  lemma TenantIDStable(v: string)
    requires IsTenantID(v)
    ensures NewTenantID(v) == Ok(v)
    ensures ':' !in v && '\'' !in v && forall i :: 0 <= i < |v| ==> !IsSpace(v[i])
  {
    var id :| NewTenantID(id) == Ok(v);
    forall i | 0 <= i < |v| ensures IsIdChar(v[i]) && LowChar(v[i]) == v[i] && v[i] == LowChar(id[i]) {
    }
    assert Lower(v) == v;
  }

  /** The documented form: at most 100 lower-case letters, digits and dashes. */
  predicate Documented(v: string) {
    1 <= |v| <= 100 && forall i :: 0 <= i < |v| ==> 'a' <= v[i] <= 'z' || IsDigit(v[i]) || v[i] == '-'
  }

  /** A tenant identifier has the documented form if and only if it is not longer than 100 characters and contains
      neither dot nor underscore. */
  lemma DocumentedIff(v: string)
    requires IsTenantID(v)
    ensures Documented(v) <==> |v| <= 100 && '.' !in v && '_' !in v
  {
    var id :| NewTenantID(id) == Ok(v);
    forall i | 0 <= i < |v| ensures IsIdChar(v[i]) && LowChar(v[i]) == v[i] {
      assert v[i] == LowChar(id[i]);
    }
    if |v| <= 100 && '.' !in v && '_' !in v {
      forall i | 0 <= i < |v| ensures v[i] != '.' && v[i] != '_' {
      }
    }
  }

  /** Not every accepted identifier does. */
  lemma UndocumentedAccepted()
    ensures NewTenantID("tenant.prod") == Ok("tenant.prod") && !Documented("tenant.prod")
  {
    var v := "tenant.prod";
    assert Lower(v) == v;
    assert v[6] == '.';
  }

  /** Two spellings name one tenant exactly when they differ in case only. */
  lemma SameTenantIff(a: string, b: string)
    requires NewTenantID(a).Ok?
    ensures NewTenantID(a) == NewTenantID(b) <==> Lower(a) == Lower(b)
  {
    if Lower(a) == Lower(b) {
      forall i | 0 <= i < |b| ensures IsIdChar(b[i]) {
        assert Lower(a)[i] == Lower(b)[i] && IsIdChar(a[i]);
      }
    }
  }
}

/** The names under which quota managers store usage and limits. */
module QuotaKeys {

  function UsageKey(prefix: string, tenant: string, quotaType: string): string {
    prefix + tenant + ":" + quotaType
  }

  function LimitKey(prefix: string, tenant: string, quotaType: string): string {
    prefix + "limit:" + tenant + ":" + quotaType
  }

  /** Text up to a first colon determines both parts. */
  lemma {:induction false} ColonSplits(a: string, b: string, c: string, d: string)
    requires ':' !in a && ':' !in c && a + ":" + b == c + ":" + d
    ensures a == c && b == d
  {
    var s, t := a + ":" + b, c + ":" + d;
    forall i | 0 <= i < |a| ensures s[i] != ':' {
      assert s[i] == a[i];
    }
    forall i | 0 <= i < |c| ensures t[i] != ':' {
      assert t[i] == c[i];
    }
    assert s[|a|] == ':' && t[|c|] == ':';
    assert |a| == |c|;
    assert a == s[..|a|] == t[..|c|] == c;
    assert b == s[|a| + 1..] == t[|c| + 1..] == d;
  }

  lemma SamePrefix(p: string, a: string, b: string)
    ensures p + a == p + b <==> a == b
  {
    assert (p + a)[|p|..] == a && (p + b)[|p|..] == b;
  }

  /** Usage keys tell tenants and quota types apart. */
  lemma UsageKeysDistinct(prefix: string, t1: string, q1: string, t2: string, q2: string)
    requires ':' !in t1 && ':' !in t2
    ensures UsageKey(prefix, t1, q1) == UsageKey(prefix, t2, q2) <==> t1 == t2 && q1 == q2
  {
    assert UsageKey(prefix, t1, q1) == prefix + (t1 + ":" + q1);
    assert UsageKey(prefix, t2, q2) == prefix + (t2 + ":" + q2);
    SamePrefix(prefix, t1 + ":" + q1, t2 + ":" + q2);
    if t1 + ":" + q1 == t2 + ":" + q2 {
      ColonSplits(t1, q1, t2, q2);
    }
  }

  /** Limit keys tell tenants and quota types apart. */
  lemma LimitKeysDistinct(prefix: string, t1: string, q1: string, t2: string, q2: string)
    requires ':' !in t1 && ':' !in t2
    ensures LimitKey(prefix, t1, q1) == LimitKey(prefix, t2, q2) <==> t1 == t2 && q1 == q2
  {
    UsageKeysDistinct(prefix + "limit:", t1, q1, t2, q2);
  }

  /** A usage key is a limit key in one case only: the tenant is called "limit", and its quota type is the other tenant
      and quota type joined by a colon. */
  lemma UsageIsLimitIff(prefix: string, t1: string, q1: string, t2: string, q2: string)
    requires ':' !in t1
    ensures UsageKey(prefix, t1, q1) == LimitKey(prefix, t2, q2) <==> t1 == "limit" && q1 == t2 + ":" + q2
  {
    assert UsageKey(prefix, t1, q1) == prefix + (t1 + ":" + q1);
    assert LimitKey(prefix, t2, q2) == prefix + ("limit" + ":" + (t2 + ":" + q2));
    SamePrefix(prefix, t1 + ":" + q1, "limit" + ":" + (t2 + ":" + q2));
    if t1 + ":" + q1 == "limit" + ":" + (t2 + ":" + q2) {
      ColonSplits(t1, q1, "limit", t2 + ":" + q2);
    }
  }
}
