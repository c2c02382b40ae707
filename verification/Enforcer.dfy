/** The SQL enforcer: a tenant condition written into the query as text, and read back out of it. */
module SqlEnforcer {
  import opened Keywords
  import opened TenantIds
  import opened Text

  function Condition(column: string, tenant: string): string {
    column + " = '" + tenant + "'"
  }

  function TailKeywords(): seq<string> {
    [" ORDER BY ", " GROUP BY ", " LIMIT ", " HAVING "]
  }

  /** The position of the first keyword of the list that occurs at all, or -1. */
  function FirstFound(u: string, kws: seq<string>): (r: int)
    ensures -1 <= r <= |u|
    ensures r == -1 <==> forall kw :: kw in kws ==> Index(u, kw) == -1
  {
    if kws == [] then -1
    else if Index(u, kws[0]) != -1 then Index(u, kws[0])
    else FirstFound(u, kws[1..])
  }

  function RewriteQuery(column: string, query: string, tenant: string): string {
    var upper := Upper(Trim(query));
    var wherePos := Index(upper, " WHERE ");
    var condition := Condition(column, tenant);
    TrimShorter(query);
    if HasPrefix(upper, "SELECT") || HasPrefix(upper, "DELETE") then
      var pos := FirstFound(upper, TailKeywords());
      if wherePos != -1 then query[..wherePos + 7] + condition + " AND (" + Trim(query[wherePos + 7..]) + ")"
      else if pos != -1 then query[..pos] + " WHERE " + condition + query[pos..]
      else query + " WHERE " + condition
    else if HasPrefix(upper, "UPDATE") then
      if wherePos != -1 then query[..wherePos + 7] + condition + " AND (" + Trim(query[wherePos + 7..]) + ")"
      else query + " WHERE " + condition
    else query
  }

  lemma TrimShorter(s: string)
    ensures |Trim(s)| <= |s|
  {
  }

  function Dangerous(): seq<string> {
    ["DROP TABLE", "DROP DATABASE", "TRUNCATE", "ALTER TABLE"]
  }

  function ValidateQuery(query: string): Outcome<()> {
    if query == "" then Err("query cannot be empty")
    else if FirstFound(Upper(Trim(query)), Dangerous()) != -1 then Err("dangerous operation not allowed")
    else Ok(())
  }

  /** The query for a tenant in context; the arguments go through unchanged. */
  function EnforceQuery(column: string, tenant: Option<string>, query: string): Outcome<string> {
    if tenant.None? then Err("failed to extract tenant context")
    else
      match ValidateQuery(query)
      case Ok(_) => Ok(RewriteQuery(column, query, tenant.value))
      case _ => Err("query validation failed")
  }

  /** The quoted literal after the first `=` after the first occurrence of the column, or nothing. */
  function ExtractTenantID(column: string, query: string): string {
    var lower := Lower(query);
    var i := Index(lower, column);
    if i == -1 then ""
    else
      var eq := Index(lower[i..], "=");
      if eq == -1 then "" else Literal(lower[i..][eq + 1..])
  }

  /** The text between the first two quotes. */
  function Literal(s: string): string {
    var open := Index(s, "'");
    if open == -1 then ""
    else
      var close := Index(s[open + 1..], "'");
      if close == -1 then "" else s[open + 1..][..close]
  }

  function VerifyTenantIsolation(column: string, query: string, expected: string): bool {
    ExtractTenantID(column, query) == expected
  }

  // ----- Where the condition goes -----

  /** A query that is rewritten. */
  ghost predicate Rewritable(query: string) {
    var upper := Upper(Trim(query));
    HasPrefix(upper, "SELECT") || HasPrefix(upper, "DELETE") || HasPrefix(upper, "UPDATE")
  }

  /** What comes before the condition. */
  function Head(query: string): string {
    var upper := Upper(Trim(query));
    var wherePos := Index(upper, " WHERE ");
    TrimShorter(query);
    if wherePos != -1 then query[..wherePos + 7]
    else if !HasPrefix(upper, "UPDATE") && FirstFound(upper, TailKeywords()) != -1 then
      query[..FirstFound(upper, TailKeywords())] + " WHERE "
    else query + " WHERE "
  }

  /** What comes after it. */
  function Tail(query: string): string {
    var upper := Upper(Trim(query));
    var wherePos := Index(upper, " WHERE ");
    TrimShorter(query);
    if wherePos != -1 then " AND (" + Trim(query[wherePos + 7..]) + ")"
    else if !HasPrefix(upper, "UPDATE") && FirstFound(upper, TailKeywords()) != -1 then
      query[FirstFound(upper, TailKeywords())..]
    else ""
  }

  /** The rewritten query is the condition between a head and a tail that do not depend on the tenant. */
  lemma RewriteParts(column: string, query: string, tenant: string)
    requires Rewritable(query)
    ensures RewriteQuery(column, query, tenant) == Head(query) + Condition(column, tenant) + Tail(query)
  {
    var upper := Upper(Trim(query));
    hide Index, Trim, Upper, Condition;
    assert !(HasPrefix(upper, "UPDATE") && (HasPrefix(upper, "SELECT") || HasPrefix(upper, "DELETE"))) by {
      assert HasPrefix(upper, "UPDATE") ==> upper[0..6][0] == 'U';
      assert HasPrefix(upper, "SELECT") ==> upper[0..6][0] == 'S';
      assert HasPrefix(upper, "DELETE") ==> upper[0..6][0] == 'D';
    }
  }

  // ----- Searching for one character -----

  lemma IndexChar(a: string, b: string, c: char)
    ensures c in a ==> Index(a + b, [c]) == Index(a, [c])
    ensures c !in a ==> Index(a + b, [c]) == if c in b then |a| + Index(b, [c]) else -1
    ensures c in a <==> Index(a, [c]) != -1
  {
    CharAt(a, c);
    CharAt(b, c);
    CharAt(a + b, c);
    assert forall i :: 0 <= i < |a| ==> (a + b)[i] == a[i];
    assert forall i :: 0 <= i < |b| ==> (a + b)[|a| + i] == b[i];
  }

  /** The index of a character is its first position. */
  lemma CharAt(s: string, c: char)
    ensures var i := Index(s, [c]);
            if c in s then 0 <= i < |s| && s[i] == c && c !in s[..i] else i == -1
  {
    forall i ensures MatchAt(s, i, [c]) <==> 0 <= i < |s| && s[i] == c {
      if 0 <= i < |s| {
        assert s[i..i + 1] == [s[i]];
      }
    }
  }

  // ----- Reading the tenant back -----

  /** A column name in lower case without white space, equals signs or quotes. */
  ghost predicate GoodColumn(column: string) {
    column != "" && Lower(column) == column && forall c :: c in column ==> !IsSpace(c) && c != '=' && c != '\''
  }

  /** Where the column is first found when its condition follows the text: in the text, across its end, or at the
      condition. */
  function FirstColumn(column: string, before: string): (i: nat)
    ensures i <= |before| && i == Index(before + column, column)
  {
    assert MatchAt(before + column, |before|, column);
    Index(before + column, column)
  }

  /** In the text before the condition no quote follows an equals sign that follows the column. */
  ghost predicate Clear(column: string, before: string) {
    var early := before[FirstColumn(column, before)..];
    var eq := Index(early, "=");
    eq != -1 ==> '\'' !in early[eq + 1..]
  }

  /** What follows the column's own condition does not change where the column is first found. For a text that ends in a
      space that is in the text or at the condition. */
  lemma ColumnAt(column: string, before: string, after: string)
    ensures Index(before + column + after, column) == FirstColumn(column, before)
    ensures GoodColumn(column) && before != "" && before[|before| - 1] == ' ' ==>
              FirstColumn(column, before) == if Index(before, column) != -1 then Index(before, column) else |before|
  {
    var s, t := before + column + after, before + column;
    assert MatchAt(t, |before|, column);
    forall j | 0 <= j <= |before| ensures MatchAt(s, j, column) <==> MatchAt(t, j, column) {
      assert s[..|t|] == t;
      assert j + |column| <= |t| && s[j..j + |column|] == t[j..j + |column|];
    }
    if GoodColumn(column) && before != "" && before[|before| - 1] == ' ' {
      SpaceBeforeColumn(column, before);
    }
  }

  lemma SpaceBeforeColumn(column: string, before: string)
    requires GoodColumn(column) && before != "" && before[|before| - 1] == ' '
    ensures FirstColumn(column, before) == if Index(before, column) != -1 then Index(before, column) else |before|
  {
    var t := before + column;
    forall j | 0 <= j < |before| ensures MatchAt(t, j, column) <==> MatchAt(before, j, column) {
      MatchConcat(before, column, j, column);
      var k := |before| - 1 - j;
      if k < |column| - 1 && j + |column| <= |t| {
        assert column[k] in column && column[k] != ' ';
        assert t[j..j + |column|][k] == t[|before| - 1] == ' ';
      }
    }
  }

  /** A text without the column is clear. */
  lemma AbsentColumnClear(column: string, before: string)
    requires GoodColumn(column) && Index(before, column) == -1
    ensures Clear(column, before)
  {
    var t, i := before + column, FirstColumn(column, before);
    var early := before[i..];
    assert MatchAt(t, i, column);
    MatchConcat(before, column, i, column);
    forall k | 0 <= k < |early| ensures early[k] != '=' {
      assert t[i..i + |column|][k] == early[k] && column[k] in column;
    }
    CharAt(early, '=');
  }

  lemma LiteralIs(a: string, t: string, b: string)
    requires '\'' !in a && '\'' !in t
    ensures Literal(a + "'" + t + "'" + b) == t
  {
    var s := a + "'" + t + "'" + b;
    var rest := t + "'" + b;
    assert s == a + ("'" + rest) && rest == t + ("'" + b);
    IndexChar(a, "'" + rest, '\'');
    IndexChar("'", rest, '\'');
    CharAt("'" + rest, '\'');
    assert Index(s, "'") == |a|;
    assert s[|a| + 1..] == rest;
    IndexChar(t, "'" + b, '\'');
    CharAt("'" + b, '\'');
    assert Index(rest, "'") == |t|;
    assert rest[..|t|] == t;
  }

  /** A literal that opens early does not see the tenant. */
  lemma LiteralEarly(a: string, x: string, y: string)
    requires '\'' in a
    ensures Literal(a + "'" + x) == Literal(a + "'" + y)
  {
    hide Literal;
    LiteralInside(a, x);
    LiteralInside(a, y);
  }

  lemma LiteralInside(a: string, x: string)
    requires '\'' in a
    ensures Literal(a + "'" + x) == Literal(a + "'")
  {
    CharAt(a, '\'');
    var i := Index(a, "'");
    IndexChar(a, "'" + x, '\'');
    IndexChar(a, "'", '\'');
    var rest := a[i + 1..] + "'";
    assert a + "'" + x == a + ("'" + x);
    assert (a + "'" + x)[i + 1..] == rest + x && (a + "'")[i + 1..] == rest;
    assert '\'' == rest[|rest| - 1];
    IndexChar(rest, x, '\'');
    CharAt(rest, '\'');
  }

  /** The lower-cased rewritten query. */
  lemma LowerParts(column: string, query: string, tenant: string)
    requires Rewritable(query) && GoodColumn(column) && Lower(tenant) == tenant
    ensures Lower(RewriteQuery(column, query, tenant)) ==
            Lower(Head(query)) + column + (" = '" + tenant + "'" + Lower(Tail(query)))
  {
    hide Rewritable, RewriteQuery, Head, Tail, Lower;
    RewriteParts(column, query, tenant);
    var a, b := Head(query), Tail(query);
    LowerConcat(a + Condition(column, tenant), b);
    LowerConcat(a, Condition(column, tenant));
    LowerCondition(column, tenant);
    assert Lower(a) + (column + " = '" + tenant + "'") + Lower(b) ==
           Lower(a) + column + (" = '" + tenant + "'" + Lower(b));
  }

  lemma LowerCondition(column: string, tenant: string)
    requires Lower(column) == column && Lower(tenant) == tenant
    ensures Lower(Condition(column, tenant)) == column + " = '" + tenant + "'"
  {
    assert Lower(" = '") == " = '" && Lower("'") == "'";
    hide Lower;
    LowerConcat(column + " = '" + tenant, "'");
    LowerConcat(column + " = '", tenant);
    LowerConcat(column, " = '");
  }

  /** What follows the first equals sign, when the text in front of the column's condition has none. */
  lemma AfterOwnEquals(early: string, column: string, value: string)
    requires '=' !in early && '=' !in column
    ensures var s := early + (column + " =" + value);
            var eq := Index(s, "=");
            eq != -1 && s[eq + 1..] == value
  {
    var s := early + (column + " =" + value);
    var front := early + column + " ";
    assert s == front + ("=" + value);
    IndexChar(front, "=" + value, '=');
    CharAt("=" + value, '=');
    assert Index("=" + value, "=") == 0 by { assert ("=" + value)[0] == '='; }
    assert s[|front| + 1..] == value;
  }

  /** What follows it when the text in front has one. */
  lemma AfterEarlyEquals(early: string, rest: string)
    requires '=' in early
    ensures var eq := Index(early, "=");
            0 <= eq < |early| && Index(early + rest, "=") == eq && (early + rest)[eq + 1..] == early[eq + 1..] + rest
  {
    IndexChar(early, rest, '=');
    CharAt(early, '=');
  }

  /** What is read back: with a clear front, the tenant; otherwise a literal that opens in the front. */
  lemma ReadBack(column: string, before: string, tenant: string, after: string)
    requires GoodColumn(column) && '\'' !in tenant
    ensures var lower := before + column + (" = '" + tenant + "'" + after);
            var i := Index(lower, column);
            && 0 <= i <= |before|
            && var eq := Index(lower[i..], "=");
            && eq != -1
            && (Clear(column, before) ==> Literal(lower[i..][eq + 1..]) == tenant)
            && (!Clear(column, before) ==>
                  var open := before[i..];
                  && 0 <= Index(open, "=") < |open| && '\'' in open[Index(open, "=") + 1..]
                  && lower[i..][eq + 1..] == open[Index(open, "=") + 1..] + (column + " = ") + "'" +
                     (tenant + "'" + after))
  {
    hide *;
    var rest := " = '" + tenant + "'" + after;
    var lower := before + column + rest;
    ColumnAt(column, before, rest);
    var i := Index(lower, column);
    var early := before[i..];
    Regrouped(before, i, column, tenant, after);
    if '=' in early {
      AfterEarlyEquals(early, column + rest);
      EarlyLiteral(column, before, i, tenant, after);
    } else {
      OwnLiteral(column, before, i, tenant, after);
    }
  }

  lemma Regrouped(before: string, i: nat, column: string, tenant: string, after: string)
    requires i <= |before|
    ensures var rest := " = '" + tenant + "'" + after;
            (before + column + rest)[i..] == before[i..] + (column + rest) ==
              before[i..] + (column + " =" + (" " + "'" + tenant + "'" + after))
  {
    assert " = '" == " =" + (" " + "'");
  }

  lemma EqualsFree(column: string)
    requires GoodColumn(column)
    ensures '=' !in column && '\'' !in column
  {
  }

  lemma SpaceQuoteFree()
    ensures '\'' !in " "
  {
  }

  lemma OwnLiteral(column: string, before: string, i: nat, tenant: string, after: string)
    requires GoodColumn(column) && '\'' !in tenant && i <= |before| && '=' !in before[i..]
    requires i == FirstColumn(column, before)
    ensures var s := before[i..] + (column + " =" + (" " + "'" + tenant + "'" + after));
            var eq := Index(s, "=");
            && eq != -1 && Literal(s[eq + 1..]) == tenant && Clear(column, before)
  {
    hide Index, Literal, GoodColumn;
    assert '=' !in column by { EqualsFree(column); }
    AfterOwnEquals(before[i..], column, " " + "'" + tenant + "'" + after);
    SpaceQuoteFree();
    LiteralIs(" ", tenant, after);
    NoEquals(before[i..]);
  }

  lemma NoEquals(early: string)
    requires '=' !in early
    ensures Index(early, "=") == -1
  {
    CharAt(early, '=');
  }

  lemma EarlyLiteral(column: string, before: string, i: nat, tenant: string, after: string)
    requires GoodColumn(column) && '\'' !in tenant && i <= |before| && '=' in before[i..]
    requires i == FirstColumn(column, before)
    ensures var early := before[i..];
            var eq := Index(early, "=");
            && 0 <= eq < |early|
            && (Clear(column, before) <==> '\'' !in early[eq + 1..])
            && var s := early[eq + 1..] + (column + (" = '" + tenant + "'" + after));
            && s == early[eq + 1..] + (column + " = ") + "'" + (tenant + "'" + after)
            && (Clear(column, before) ==> Literal(s) == tenant)
  {
    var early := before[i..];
    CharAt(early, '=');
    var eq := Index(early, "=");
    var mid := early[eq + 1..] + (column + " = ");
    var s := early[eq + 1..] + (column + (" = '" + tenant + "'" + after));
    assert s == mid + "'" + (tenant + "'" + after);
    if Clear(column, before) {
      assert '\'' !in mid;
      LiteralIs(mid, tenant, after);
      assert s == mid + "'" + tenant + "'" + after;
    }
  }

  /** The tenant of a rewritten query is verified, whatever the tenant, exactly when the text before the condition is
      clear. In particular it is when that text does not mention the column. */
  lemma VerificationRoundTrip(column: string, query: string)
    requires GoodColumn(column) && Rewritable(query)
    ensures ValidateQuery(query).Ok? ==>
              forall t :: EnforceQuery(column, Some(t), query) == Ok(RewriteQuery(column, query, t))
    ensures (forall t :: IsTenantID(t) ==> VerifyTenantIsolation(column, RewriteQuery(column, query, t), t))
            <==> Clear(column, Lower(Head(query)))
    ensures Index(Lower(Head(query)), column) == -1 ==> Clear(column, Lower(Head(query)))
  {
    hide Rewritable, RewriteQuery, ExtractTenantID, IsTenantID, Index, Lower, ValidateQuery, Clear;
    if Index(Lower(Head(query)), column) == -1 {
      AbsentColumnClear(column, Lower(Head(query)));
    }
    if Clear(column, Lower(Head(query))) {
      forall t | IsTenantID(t) ensures VerifyTenantIsolation(column, RewriteQuery(column, query, t), t) {
        ReadsTenant(column, query, t);
      }
    } else {
      ShortTenants();
      ReadsTheSame(column, query, "a", "b");
      var read := ExtractTenantID(column, RewriteQuery(column, query, "a"));
      assert read != "a" || read != "b";
    }
  }

  lemma ShortTenants()
    ensures IsTenantID("a") && IsTenantID("b")
  {
    assert NewTenantID("a") == Ok("a") by { assert Lower("a") == "a"; }
    assert NewTenantID("b") == Ok("b") by { assert Lower("b") == "b"; }
  }

  lemma LowerTenant(t: string)
    requires IsTenantID(t)
    ensures Lower(t) == t && '\'' !in t
  {
    TenantIDStable(t);
  }

  lemma ReadsTenant(column: string, query: string, t: string)
    requires GoodColumn(column) && Rewritable(query) && IsTenantID(t) && Clear(column, Lower(Head(query)))
    ensures ExtractTenantID(column, RewriteQuery(column, query, t)) == t
  {
    hide Rewritable, RewriteQuery, Index, Lower, Literal, Head, Tail, IsTenantID, Clear;
    LowerTenant(t);
    LowerParts(column, query, t);
    ReadBack(column, Lower(Head(query)), t, Lower(Tail(query)));
  }

  lemma ReadsTheSame(column: string, query: string, t: string, u: string)
    requires GoodColumn(column) && Rewritable(query) && IsTenantID(t) && IsTenantID(u)
             && !Clear(column, Lower(Head(query)))
    ensures ExtractTenantID(column, RewriteQuery(column, query, t)) ==
            ExtractTenantID(column, RewriteQuery(column, query, u))
  {
    hide Rewritable, RewriteQuery, Index, Lower, Literal, Head, Tail, IsTenantID, Clear;
    LowerTenant(t);
    LowerTenant(u);
    LowerParts(column, query, t);
    LowerParts(column, query, u);
    var before, after := Lower(Head(query)), Lower(Tail(query));
    ReadBack(column, before, t, after);
    ReadBack(column, before, u, after);
    ColumnAt(column, before, " = '" + t + "'" + after);
    ColumnAt(column, before, " = '" + u + "'" + after);
    var i := Index(Lower(RewriteQuery(column, query, t)), column);
    var open := before[i..];
    var mid := open[Index(open, "=") + 1..] + (column + " = ");
    LiteralEarly(mid, t + "'" + after, u + "'" + after);
  }

  // ----- White space in front -----

  /** Neither a WHERE nor, in a SELECT or DELETE, a tail keyword is found: the condition goes to the end. */
  ghost predicate GoesLast(query: string) {
    var upper := Upper(Trim(query));
    && Index(upper, " WHERE ") == -1
    && (HasPrefix(upper, "SELECT") || HasPrefix(upper, "DELETE") ==> FirstFound(upper, TailKeywords()) == -1)
  }

  lemma TrimFront(l: string, query: string)
    requires AllSpaces(l) && query != "" && !IsSpace(query[0])
    ensures Trim(l + query) == Trim(query) && Trim(query) == query[..|Trim(query)|]
  {
    TrimStartAround(l, query);
    assert TrimStart(query) == query;
  }

  /** The positions are those in the trimmed query, but the cuts are made in the untrimmed one. White space in front of
      a query does no harm if and only if the condition goes to the end. */
  lemma LeadingSpaceExact(column: string, l: string, query: string, tenant: string)
    requires GoodColumn(column) && Rewritable(query) && query != "" && !IsSpace(query[0])
    requires l != "" && AllSpaces(l)
    ensures RewriteQuery(column, l + query, tenant) == l + RewriteQuery(column, query, tenant) <==> GoesLast(query)
  {
    hide *;
    TrimFront(l, query);
    TrimShorter(query);
    var upper := Upper(Trim(query));
    var w, p := Index(upper, " WHERE "), FirstFound(upper, TailKeywords());
    SameCuts(column, l, query, tenant);
    PositionBounds(query);
    if w != -1 {
      WhereInside(query, w);
      SpacedWhere(column, l, query, tenant, w);
    } else if !GoesLast(query) {
      TailOpens(query);
      SpacedTail(column, l, query, tenant, p);
    }
  }

  /** What the rewriting makes of a query with white space in front, by cases. */
  lemma SameCuts(column: string, l: string, query: string, tenant: string)
    requires Rewritable(query) && Trim(l + query) == Trim(query) && |Trim(query)| <= |query|
    ensures var upper, q, c := Upper(Trim(query)), l + query, Condition(column, tenant);
            var w, p := Index(upper, " WHERE "), FirstFound(upper, TailKeywords());
            var r, r' := RewriteQuery(column, query, tenant), RewriteQuery(column, q, tenant);
            && (w != -1 ==> 0 <= w && w + 7 <= |query|
                            && r == query[..w + 7] + c + " AND (" + Trim(query[w + 7..]) + ")"
                            && r' == q[..w + 7] + c + " AND (" + Trim(q[w + 7..]) + ")")
            && (GoesLast(query) ==> w == -1 && r' == l + r)
            && (w == -1 && !GoesLast(query) ==> 0 <= p <= |query| && r == query[..p] + " WHERE " + c + query[p..]
                                                && r' == q[..p] + " WHERE " + c + q[p..])
  {
    var upper, c := Upper(Trim(query)), Condition(column, tenant);
    WhereBound(upper);
    hide Index, Trim, Upper, Condition, TailKeywords;
    assert (l + query) + " WHERE " + c == l + (query + " WHERE " + c);
  }

  lemma WhereBound(u: string)
    ensures Index(u, " WHERE ") != -1 ==> 0 <= Index(u, " WHERE ") <= |u| - 7
    ensures HasPrefix(u, "UPDATE") ==> !HasPrefix(u, "SELECT") && !HasPrefix(u, "DELETE")
  {
    assert HasPrefix(u, "UPDATE") ==> u[0..6][0] == 'U';
    assert HasPrefix(u, "SELECT") ==> u[0..6][0] == 'S';
    assert HasPrefix(u, "DELETE") ==> u[0..6][0] == 'D';
  }

  lemma PositionBounds(query: string)
    ensures FirstFound(Upper(Trim(query)), TailKeywords()) <= |Trim(query)|
  {
    hide Index, Trim, TailKeywords;
  }

  lemma WhereInside(query: string, w: nat)
    requires query != "" && Trim(query) == query[..|Trim(query)|] && |Trim(query)| <= |query|
    requires Index(Upper(Trim(query)), " WHERE ") == w
    ensures w + 7 <= |query| && query[w + 6] == ' '
  {
    hide Trim;
    var t := Trim(query);
    assert Upper(t)[w..w + 7][6] == ' ' == UpChar(t[w + 6]);
    assert t[w + 6] == query[w + 6];
  }

  lemma TailOpens(query: string)
    requires Rewritable(query) && query != "" && !GoesLast(query) && Index(Upper(Trim(query)), " WHERE ") == -1
    requires Trim(query) == query[..|Trim(query)|] && |Trim(query)| <= |query|
    ensures 0 <= FirstFound(Upper(Trim(query)), TailKeywords())
    ensures UpChar(query[0]) != 'W'
  {
    hide Index, Trim, TailKeywords;
    var u := Upper(Trim(query));
    assert HasPrefix(u, "SELECT") ==> u[0..6][0] == 'S';
    assert HasPrefix(u, "DELETE") ==> u[0..6][0] == 'D';
    assert u[0] == UpChar(query[0]);
  }

  /** What a cut `|l|` characters early leaves behind of the text before it. */
  function Shifted(l: string, query: string, i: nat): (x: string)
    requires i <= |query|
    ensures |x| == |l|
  {
    (l + query[..i])[i..]
  }

  lemma CutEarly(l: string, query: string, i: nat)
    requires i <= |query|
    ensures var q, x := l + query, Shifted(l, query, i);
            && q[i..] == x + query[i..] && q[..i] + x == l + query[..i]
            && (forall k :: 0 <= k < |l| ==> x[k] == if i + k < |l| then l[i + k] else query[i + k - |l|])
  {
    assert (l + query)[..i] == (l + query[..i])[..i];
  }

  lemma SpacedWhere(column: string, l: string, query: string, tenant: string, w: nat)
    requires GoodColumn(column) && l != "" && w + 7 <= |query| && query[w + 6] == ' '
    ensures var a, q, c := w + 7, l + query, Condition(column, tenant);
            q[..a] + c + " AND (" + Trim(q[a..]) + ")" != l + (query[..a] + c + " AND (" + Trim(query[a..]) + ")")
  {
    var a, q, c := w + 7, l + query, Condition(column, tenant);
    var x, r := Shifted(l, query, a), query[a..];
    CutEarly(l, query, a);
    OpenParenthesis(column, tenant);
    hide *;
    ShiftedConjunct(c + " AND (", x, r);
    DifferentMiddle(q[..a], c, " AND (", Trim(x + r), Trim(r), ")", l, query[..a], x);
  }

  lemma OpenParenthesis(column: string, tenant: string)
    requires GoodColumn(column)
    ensures var k := Condition(column, tenant) + " AND ("; k != "" && !IsSpace(k[0]) && k[|k| - 1] == '('
  {
    hide IsSpace;
    var k := Condition(column, tenant) + " AND (";
    assert column[0] in column && k[0] == column[0];
    assert k[|k| - 1] == " AND ("[5];
  }

  lemma DifferentMiddle(p: string, c: string, and: string, t: string, t': string, close: string, l: string, p': string,
                        x: string)
    requires p + x == l + p' && (c + and) + t != x + (c + and) + t'
    ensures p + c + and + t + close != l + (p' + c + and + t' + close)
  {
    var k := c + and;
    assert p + c + and + t + close == p + (k + t) + close;
    assert l + (p' + c + and + t' + close) == (l + p') + k + t' + close == p + (x + k + t') + close;
    SameMiddle(p, k + t, x + k + t', close);
  }

  lemma SameMiddle(a: string, x: string, y: string, b: string)
    ensures a + x + b == a + y + b ==> x == y
  {
    var l, r := a + x + b, a + y + b;
    if l == r {
      assert |x| == |y|;
      assert l[|a|..|a| + |x|] == x && r[|a|..|a| + |y|] == y;
    }
  }

  lemma ShiftedConjunct(k: string, x: string, r: string)
    requires k != "" && !IsSpace(k[0]) && k[|k| - 1] == '(' && x != "" && x[|x| - 1] == ' '
    ensures k + Trim(x + r) != x + k + Trim(r)
  {
    var left, right := k + Trim(x + r), x + k + Trim(r);
    if x[0] != k[0] {
      assert left[0] == k[0] && right[0] == x[0];
    } else if |Trim(x + r)| != |x| + |Trim(r)| {
      assert |left| != |right|;
    } else {
      assert TrimStart(x + r) == x + r;
      assert left[|k| + |x| - 1] == Trim(x + r)[|x| - 1] == x[|x| - 1];
      assert right[|k| + |x| - 1] == (x + k)[|x| + |k| - 1] == '(';
    }
  }

  lemma SpacedTail(column: string, l: string, query: string, tenant: string, p: nat)
    requires l != "" && AllSpaces(l) && query != "" && UpChar(query[0]) != 'W' && p <= |Trim(query)| <= |query|
    requires Trim(query) == query[..|Trim(query)|] && Index(Upper(Trim(query)), " WHERE ") == -1
    ensures var q, c := l + query, Condition(column, tenant);
            q[..p] + " WHERE " + c + q[p..] != l + (query[..p] + " WHERE " + c + query[p..])
  {
    var q, c := l + query, Condition(column, tenant);
    var x, r := Shifted(l, query, p), query[p..];
    CutEarly(l, query, p);
    NoShiftedWhere(l, query, p);
    CloseQuote(column, tenant);
    hide *;
    DoNotCommute(" WHERE " + c, x);
    DifferentTail(q[..p], " WHERE ", c, r, l, query[..p], x);
  }

  lemma CloseQuote(column: string, tenant: string)
    ensures var k := " WHERE " + Condition(column, tenant); |k| >= 7 && k[..7] == " WHERE " && k[|k| - 1] == '\''
  {
    var k := " WHERE " + Condition(column, tenant);
    assert k[|k| - 1] == "'"[0];
  }

  lemma DifferentTail(p: string, where_: string, c: string, r: string, l: string, p': string, x: string)
    requires p + x == l + p' && (where_ + c) + x != x + (where_ + c)
    ensures p + where_ + c + (x + r) != l + (p' + where_ + c + r)
  {
    var k := where_ + c;
    assert p + where_ + c + (x + r) == p + (k + x) + r;
    assert l + (p' + where_ + c + r) == (l + p') + k + r == p + (x + k) + r;
    SameMiddle(p, k + x, x + k, r);
  }

  lemma DoNotCommute(k: string, x: string)
    requires |k| >= 7 && k[..7] == " WHERE " && k[|k| - 1] == '\'' && x != ""
    requires |x| >= 7 ==> x[..7] != " WHERE "
    ensures k + x != x + k
  {
    var left, right, n := k + x, x + k, |x|;
    if n >= 7 {
      assert left[..7] == k[..7] && right[..7] == x[..7];
    } else if x[n - 1] == '\'' {
      assert left[n - 1] == k[n - 1] == k[..7][n - 1] && right[n - 1] == x[n - 1];
    } else {
      assert left[|k| + n - 1] == x[n - 1] && right[|k| + n - 1] == k[|k| - 1];
    }
  }

  /** No WHERE is left behind, as the query has none. */
  lemma NoShiftedWhere(l: string, query: string, p: nat)
    requires l != "" && AllSpaces(l) && query != "" && UpChar(query[0]) != 'W' && p <= |Trim(query)| <= |query|
    requires Trim(query) == query[..|Trim(query)|] && Index(Upper(Trim(query)), " WHERE ") == -1
    ensures var x := Shifted(l, query, p); |x| >= 7 ==> x[..7] != " WHERE "
  {
    hide *;
    var x := Shifted(l, query, p);
    CutEarly(l, query, p);
    if |x| >= 7 {
      if p < |l| {
        SpaceOrFirst(l, query, p + 1);
        SecondDiffers(x);
      } else {
        var i := p - |l|;
        assert x[..7] == query[i..i + 7] == Trim(query)[i..i + 7];
        NotWhereAt(Trim(query), i);
      }
    }
  }

  lemma SpaceOrFirst(l: string, query: string, k: nat)
    requires AllSpaces(l) && query != "" && UpChar(query[0]) != 'W' && k <= |l|
    ensures (if k < |l| then l[k] else query[k - |l|]) != 'W'
  {
  }

  lemma SecondDiffers(x: string)
    requires |x| >= 7 && x[1] != 'W'
    ensures x[..7] != " WHERE "
  {
    assert x[..7][1] == x[1];
  }

  lemma NotWhereAt(t: string, i: nat)
    requires i + 7 <= |t| && Index(Upper(t), " WHERE ") == -1
    ensures t[i..i + 7] != " WHERE "
  {
    var u := Upper(t);
    assert !MatchAt(u, i, " WHERE ");
    assert u[i..i + 7] == Upper(t[i..i + 7]);
    WhereUpper();
  }

  // ----- Tail clauses out of the order of the list -----

  /** The keyword that is listed first counts, not the one that stands first. When number `k` is the first of the list
      that occurs, the condition goes in front of all tail clauses if and only if no later-listed keyword stands before
      it. */
  lemma FrontOfTailIff(u: string, k: nat)
    requires k < |TailKeywords()| && Index(u, TailKeywords()[k]) != -1
    requires forall j :: 0 <= j < k ==> Index(u, TailKeywords()[j]) == -1
    ensures var kws, p := TailKeywords(), FirstFound(u, TailKeywords());
            && p == Index(u, kws[k])
            && ((forall i, kw :: i < p && kw in kws ==> !MatchAt(u, i, kw)) <==>
                (forall l :: k < l < |kws| ==> Index(u, kws[l]) == -1 || Index(u, kws[l]) >= p))
  {
    var kws := TailKeywords();
    FirstFoundAt(u, kws, k);
    hide Index, TailKeywords;
    var p := FirstFound(u, kws);
    if forall l :: k < l < |kws| ==> Index(u, kws[l]) == -1 || Index(u, kws[l]) >= p {
      forall i, kw | i < p && kw in kws ensures !MatchAt(u, i, kw) {
        var l :| 0 <= l < |kws| && kws[l] == kw;
        FirstMatch(u, kw, i);
      }
    } else {
      var l :| k < l < |kws| && Index(u, kws[l]) != -1 && Index(u, kws[l]) < p;
      FirstMatch(u, kws[l], 0);
      assert MatchAt(u, Index(u, kws[l]), kws[l]) && kws[l] in kws;
    }
  }

  lemma FirstMatch(u: string, kw: string, i: int)
    ensures Index(u, kw) == -1 || i < Index(u, kw) ==> !MatchAt(u, i, kw)
    ensures Index(u, kw) != -1 ==> MatchAt(u, Index(u, kw), kw)
  {
  }

  lemma {:induction false} FirstFoundAt(u: string, kws: seq<string>, k: nat)
    requires k < |kws| && Index(u, kws[k]) != -1 && forall j :: 0 <= j < k ==> Index(u, kws[j]) == -1
    ensures FirstFound(u, kws) == Index(u, kws[k])
  {
    if k > 0 {
      hide Index;
      assert Index(u, kws[0]) == -1 && kws[1..][k - 1] == kws[k];
      forall j | 0 <= j < k - 1 ensures Index(u, kws[1..][j]) == -1 {
        assert kws[1..][j] == kws[j + 1];
      }
      FirstFoundAt(u, kws[1..], k - 1);
    }
  }

  lemma GroupOrderWords()
    ensures IsWord("GROUP") && IsWord("BY") && IsWord("ORDER") && IsWord("WHERE")
  {
  }

  lemma GroupOrderSpelled()
    ensures Spaced(["GROUP", "BY"]) == " GROUP BY " && Spaced(["ORDER", "BY"]) == " ORDER BY "
    ensures Upper(" ORDER BY ") == " ORDER BY " && TailKeywords()[0] == " ORDER BY "
  {
    assert ["GROUP", "BY"][1..] == ["BY"] && ["ORDER", "BY"][1..] == ["BY"] && ["BY"][1..] == [];
  }

  lemma OpensOrder()
    ensures Opens(" ORDER BY ", "ORDER") && Opens(" WHERE ", "WHERE")
  {
    GroupOrderWords();
    assert " ORDER BY " == " " + "ORDER" + " BY " && " WHERE " == " " + "WHERE" + " ";
    hide Opens, IsWord;
    OpensWith("ORDER", " BY ");
    OpensWith("WHERE", " ");
  }

  function Grouped(head: string, group: string): string {
    head + " GROUP BY " + group
  }

  function GroupedAndOrdered(head: string, group: string, order: string): string {
    Grouped(head, group) + " ORDER BY " + order
  }

  /** A SELECT with GROUP BY and ORDER BY and no WHERE: the WHERE is written between the two, and the database will
      reject it. */
  lemma OrderByTakenFirst(column: string, head: string, group: string, order: string, tenant: string)
    requires HasPrefix(Upper(head), "SELECT") && Trimmed(GroupedAndOrdered(head, group, order))
    requires Clean(head, "ORDER") && Clean(group, "ORDER")
    requires Clean(head, "WHERE") && Clean(group, "WHERE") && Clean(order, "WHERE")
    ensures RewriteQuery(column, GroupedAndOrdered(head, group, order), tenant) ==
            Grouped(head, group) + " WHERE " + Condition(column, tenant) + " ORDER BY " + order
  {
    hide *;
    var query, front := GroupedAndOrdered(head, group, order), Grouped(head, group);
    GroupOrderWords();
    GroupOrderSpelled();
    OpensOrder();
    GroupedIs(head, group, order);
    TrimOfTrimmed(query);
    PartsAreClean(head, group, order);
    SelectPrefix(head, query[|head|..]);
    var rest := " ORDER BY " + order;
    assert query == front + rest && rest[0] == ' ' && rest != "" by { OrderStarts(order, front); }
    StartsLiteral(" ORDER BY ", order);
    IndexAt(front, rest, " ORDER BY ", "ORDER");
    IndexNone(query, " WHERE ", "WHERE");
    FirstFoundOrder(Upper(query));
    assert query[..|front|] == front && query[|front|..] == rest;
    CutAtTail(column, query, tenant, |front|);
    assert front + " WHERE " + Condition(column, tenant) + rest ==
           front + " WHERE " + Condition(column, tenant) + " ORDER BY " + order by {
      Reassociated(front + " WHERE " + Condition(column, tenant), " ORDER BY ", order);
    }
  }

  lemma Reassociated(a: string, b: string, c: string)
    ensures a + (b + c) == a + b + c
  {
  }

  lemma GroupedIs(head: string, group: string, order: string)
    ensures Grouped(head, group) == head + " GROUP BY " + group
    ensures GroupedAndOrdered(head, group, order) == Grouped(head, group) + " ORDER BY " + order
    ensures |head| <= |GroupedAndOrdered(head, group, order)|
    ensures GroupedAndOrdered(head, group, order) == head + GroupedAndOrdered(head, group, order)[|head|..]
  {
    assert Grouped(head, group)[..|head|] == head;
    assert GroupedAndOrdered(head, group, order)[..|head|] == head;
  }

  lemma OrderStarts(order: string, front: string)
    ensures var rest := " ORDER BY " + order;
            rest != "" && rest[0] == ' ' && front + rest == front + " ORDER BY " + order
  {
  }

  lemma PartsAreClean(head: string, group: string, order: string)
    requires IsWord("GROUP") && IsWord("BY") && IsWord("ORDER") && IsWord("WHERE")
    requires Spaced(["GROUP", "BY"]) == " GROUP BY " && Spaced(["ORDER", "BY"]) == " ORDER BY "
    requires Clean(head, "ORDER") && Clean(group, "ORDER")
    requires Clean(head, "WHERE") && Clean(group, "WHERE") && Clean(order, "WHERE")
    ensures Clean(Grouped(head, group), "ORDER") && Clean(GroupedAndOrdered(head, group, order), "WHERE")
  {
    hide Clean, IsWord, Spaced;
    CleanSpaced(head, ["GROUP", "BY"], group, "ORDER");
    CleanSpaced(head, ["GROUP", "BY"], group, "WHERE");
    CleanSpaced(Grouped(head, group), ["ORDER", "BY"], order, "WHERE");
  }

  lemma SelectPrefix(head: string, rest: string)
    requires HasPrefix(Upper(head), "SELECT")
    ensures HasPrefix(Upper(head + rest), "SELECT")
  {
    UpperConcat(head, rest);
    assert Upper(head + rest)[..6] == Upper(head)[..6];
  }

  lemma FirstFoundOrder(u: string)
    requires TailKeywords()[0] == " ORDER BY " && Index(u, " ORDER BY ") != -1
    ensures FirstFound(u, TailKeywords()) == Index(u, " ORDER BY ")
  {
    hide Index;
  }

  lemma CutAtTail(column: string, query: string, tenant: string, p: nat)
    requires Trim(query) == query && HasPrefix(Upper(query), "SELECT") && p <= |query|
    requires Index(Upper(query), " WHERE ") == -1 && FirstFound(Upper(query), TailKeywords()) == p
    ensures RewriteQuery(column, query, tenant) == query[..p] + " WHERE " + Condition(column, tenant) + query[p..]
  {
    hide Index, Trim, Upper, Condition, TailKeywords;
  }

  lemma WhereStarts(head: string, rest: string)
    ensures var t := " WHERE " + rest; t != "" && t[0] == ' ' && head + t == head + " WHERE " + rest
  {
  }

  lemma RestTrimmed(head: string, cond: string, tail: string)
    requires cond != "" && !IsSpace(cond[0]) && Trimmed(head + " WHERE " + (cond + tail))
    ensures Trim(cond + tail) == cond + tail
  {
    var query, rest := head + " WHERE " + (cond + tail), cond + tail;
    assert rest[|rest| - 1] == query[|query| - 1] && rest[0] == cond[0];
    TrimOfTrimmed(rest);
  }

  lemma CutAtWhere(column: string, query: string, tenant: string, w: nat)
    requires Trim(query) == query && Rewritable(query) && w + 7 <= |query| && Index(Upper(query), " WHERE ") == w
    ensures RewriteQuery(column, query, tenant) ==
            query[..w + 7] + Condition(column, tenant) + " AND (" + Trim(query[w + 7..]) + ")"
  {
    hide Index, Trim, Upper, Condition, TailKeywords;
  }

  lemma OutsideIff(front: string, cond: string, tail: string)
    requires tail == "" || tail[0] == ' '
    ensures front + (cond + tail) + ")" == front + cond + ")" + tail <==> tail == ""
  {
    if tail == "" {
      assert cond + tail == cond && front + cond + ")" + tail == front + cond + ")";
    } else {
      var n := |front + cond|;
      assert (front + (cond + tail) + ")")[n] == tail[0] && (front + cond + ")" + tail)[n] == ')';
    }
  }

  // ----- The texts -----

  /** A query is refused without a tenant, when it is empty, and when it mentions one of four operations; every other
      one is rewritten. */
  lemma EnforcedIff(column: string, tenant: Option<string>, query: string)
    ensures var u := Upper(Trim(query));
            EnforceQuery(column, tenant, query).Ok? <==>
            tenant.Some? && query != "" && Absent("DROP TABLE", u) && Absent("DROP DATABASE", u)
            && Absent("TRUNCATE", u) && Absent("ALTER TABLE", u)
    ensures EnforceQuery(column, tenant, query).Ok? ==>
              EnforceQuery(column, tenant, query) == Ok(RewriteQuery(column, query, tenant.value))
  {
    var u := Upper(Trim(query));
    hide Trim, Upper, RewriteQuery;
    AbsentIff(u, "DROP TABLE");
    AbsentIff(u, "DROP DATABASE");
    AbsentIff(u, "TRUNCATE");
    AbsentIff(u, "ALTER TABLE");
    hide Index;
    assert Dangerous() == ["DROP TABLE", "DROP DATABASE", "TRUNCATE", "ALTER TABLE"];
  }

  lemma AbsentIff(u: string, p: string)
    ensures Index(u, p) == -1 <==> Absent(p, u)
  {
  }

  predicate OpensWithOneOf(query: string, words: set<string>) {
    |query| >= 6 && Upper(query[..6]) in words
  }

  lemma OpensPrefix(query: string, word: string)
    requires |word| == 6
    ensures HasPrefix(Upper(query), word) <==> OpensWithOneOf(query, {word})
  {
    if |query| >= 6 {
      assert Upper(query)[0..6] == Upper(query[..6]);
    }
  }

  /** SELECT, UPDATE and DELETE with a WHERE: the condition goes right behind it, and the rest in parentheses. */
  lemma WhereConjoined(column: string, head: string, c: string, tenant: string)
    requires var query := head + " WHERE " + c; Trimmed(query) && OpensWithOneOf(query, {"SELECT", "UPDATE", "DELETE"})
    requires Clean(head, "WHERE")
    ensures RewriteQuery(column, head + " WHERE " + c, tenant) ==
            head + " WHERE " + (column + " = '" + tenant + "'") + " AND (" + Trim(c) + ")"
  {
    hide *;
    var query := head + " WHERE " + c;
    OpensOrder();
    TrimOfTrimmed(query);
    WhereStarts(head, c);
    WhereUpper();
    assert query == head + (" WHERE " + c);
    IndexAt(head, " WHERE " + c, " WHERE ", "WHERE");
    OpensRewritable(query);
    assert query[..|head| + 7] == head + " WHERE " && query[|head| + 7..] == c;
    CutAtWhere(column, query, tenant, |head|);
    ConditionIs(column, tenant);
  }

  lemma ConditionIs(column: string, tenant: string)
    ensures Condition(column, tenant) == column + " = '" + tenant + "'"
  {
  }

  lemma OpensRewritable(query: string)
    requires Trimmed(query)
    ensures OpensWithOneOf(query, {"SELECT", "UPDATE", "DELETE"}) <==> Rewritable(query)
  {
    TrimOfTrimmed(query);
    OpensPrefix(query, "SELECT");
    OpensPrefix(query, "UPDATE");
    OpensPrefix(query, "DELETE");
    hide Trim;
  }

  /** With a WHERE, all that follows it goes in the parentheses: the query is right if and only if nothing follows the
      condition. */
  lemma TailInParenthesesIff(column: string, head: string, cond: string, tail: string, tenant: string)
    requires var query := head + " WHERE " + (cond + tail);
             Trimmed(query) && OpensWithOneOf(query, {"SELECT", "UPDATE", "DELETE"})
    requires Clean(head, "WHERE")
    requires cond != "" && !IsSpace(cond[0]) && (tail == "" || tail[0] == ' ')
    ensures var r, equation := RewriteQuery(column, head + " WHERE " + (cond + tail), tenant),
              column + " = '" + tenant + "'";
            && r == head + " WHERE " + equation + " AND (" + (cond + tail) + ")"
            && (r == head + " WHERE " + equation + " AND (" + cond + ")" + tail <==> tail == "")
  {
    hide *;
    WhereConjoined(column, head, cond + tail, tenant);
    RestTrimmed(head, cond, tail);
    OutsideIff(head + " WHERE " + (column + " = '" + tenant + "'") + " AND (", cond, tail);
  }

  /** SELECT and DELETE without a WHERE: the condition goes in front of the first-listed of four tail clauses that
      occurs, or to the end; UPDATE without a WHERE: to the end. */
  lemma WhereAdded(column: string, head: string, tail: string, k: nat, tenant: string)
    requires var query := head + tail; Trimmed(query) && Absent(" WHERE ", Upper(query))
    requires k <= 4 && (k == 4 <==> tail == "")
    requires forall j :: 0 <= j < k ==>
             Absent([" ORDER BY ", " GROUP BY ", " LIMIT ", " HAVING "][j], Upper(head + tail))
    requires k < 4 ==> Index(Upper(head + tail), [" ORDER BY ", " GROUP BY ", " LIMIT ", " HAVING "][k]) == |head|
    ensures OpensWithOneOf(head + tail, {"SELECT", "DELETE"}) ==>
              RewriteQuery(column, head + tail, tenant) == head + " WHERE " + (column + " = '" + tenant + "'") + tail
    ensures OpensWithOneOf(head + tail, {"UPDATE"}) ==>
              RewriteQuery(column, head + tail, tenant) == head + tail + " WHERE " + (column + " = '" + tenant + "'")
  {
    var query := head + tail;
    TrimOfTrimmed(query);
    OpensPrefix(query, "SELECT");
    OpensPrefix(query, "UPDATE");
    OpensPrefix(query, "DELETE");
    var u, kws := Upper(query), TailKeywords();
    assert kws == [" ORDER BY ", " GROUP BY ", " LIMIT ", " HAVING "];
    AbsentIff(u, " WHERE ");
    forall j | 0 <= j < k ensures Index(u, kws[j]) == -1 {
      AbsentIff(u, kws[j]);
    }
    if k < 4 {
      FirstFoundAt(u, kws, k);
    }
    hide Trim, Upper, Index, Trimmed, Absent;
    assert k == 4 ==> FirstFound(u, kws) == -1;
    assert query[..|head|] == head && query[|head|..] == tail;
    if tail == "" {
      assert head + tail == head;
    }
  }

  /** Every other statement passes through, INSERT among them. */
  lemma OthersPass(column: string, query: string, tenant: string)
    requires Trimmed(query) && !OpensWithOneOf(query, {"SELECT", "UPDATE", "DELETE"})
    ensures RewriteQuery(column, query, tenant) == query
  {
    TrimOfTrimmed(query);
    OpensPrefix(query, "SELECT");
    OpensPrefix(query, "UPDATE");
    OpensPrefix(query, "DELETE");
    hide Trim;
  }
}
