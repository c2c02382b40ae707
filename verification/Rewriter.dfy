/** Injection of the tenant condition into SELECT, UPDATE and DELETE. */
module Rewriter {
  import opened Text
  import opened Decimal
  import opened Placeholders
  import opened Keywords
  import opened FromClause

  datatype Config = Config(tenantTables: seq<string>, tenantColumn: string)

  /** A rewritten query and its argument list. */
  type Rewritten = (string, seq<Value>)

  function SelectEnds(): seq<string> {
    [" ORDER BY ", " GROUP BY ", " LIMIT ", " HAVING ", " UNION ", " EXCEPT ", " INTERSECT ", " FOR UPDATE",
     " FOR SHARE"]
  }

  function MutationEnds(): seq<string> {
    [" RETURNING "]
  }

  // ----- Tenant tables -----

  function LastIndex(s: string, c: char): (i: int)
    ensures -1 <= i < |s|
    ensures i != -1 ==> s[i] == c
    ensures forall k :: i < k < |s| ==> s[k] != c
  {
    if s == "" then -1 else if s[|s| - 1] == c then |s| - 1 else LastIndex(s[..|s| - 1], c)
  }

  /** The lower-case table name without its schema. */
  function BaseName(name: string): string {
    var n := Lower(name);
    n[LastIndex(n, '.') + 1..]
  }

  predicate IsTenantTable(config: Config, name: string) {
    exists t :: t in config.tenantTables && EqualFold(t, BaseName(name))
  }

  /** Some configured table, written without a schema, is in any letter case the name or what follows its last dot. */
  ghost predicate NamesTenantTable(config: Config, name: string) {
    exists t :: t in config.tenantTables && '.' !in t && EndsInName(Lower(name), Lower(t))
  }

  predicate EndsInName(name: string, base: string) {
    name == base || (|name| > |base| && name[|name| - |base| - 1..] == "." + base)
  }

  lemma {:induction false} LastIndexNone(s: string, c: char)
    requires c !in s
    ensures LastIndex(s, c) == -1
  {
    if s != "" {
      assert s[|s| - 1] in s;
      LastIndexNone(s[..|s| - 1], c);
    }
  }

  lemma {:induction false} LastAt(a: string, c: char, b: string)
    requires c !in b
    ensures LastIndex(a + [c] + b, c) == |a|
  {
    var s := a + [c] + b;
    if b != "" {
      assert s[..|s| - 1] == a + [c] + b[..|b| - 1] && s[|s| - 1] == b[|b| - 1];
      LastAt(a, c, b[..|b| - 1]);
    }
  }

  lemma LowerKeepsDots(s: string)
    ensures '.' in s <==> '.' in Lower(s)
    ensures Lower(Lower(s)) == Lower(s)
  {
    forall i | 0 <= i < |s| ensures s[i] == '.' <==> Lower(s)[i] == '.' {}
    if '.' in s {
      var i :| 0 <= i < |s| && s[i] == '.';
      assert Lower(s)[i] in Lower(s);
    }
    if '.' in Lower(s) {
      var i :| 0 <= i < |s| && Lower(s)[i] == '.';
      assert s[i] in s;
    }
  }

  /** What stands after the last dot is a given dot-free name exactly when the whole ends in that name. */
  lemma AfterLastDot(n: string, base: string)
    requires '.' !in base
    ensures n[LastIndex(n, '.') + 1..] == base <==> EndsInName(n, base)
  {
    var d := LastIndex(n, '.');
    if n[d + 1..] == base && d != -1 {
      assert n[|n| - |base| - 1..] == "." + base;
    }
    if n == base {
      LastIndexNone(n, '.');
    } else if EndsInName(n, base) {
      var k := |n| - |base| - 1;
      assert n == n[..k] + n[k..] == n[..k] + ['.'] + base;
      LastAt(n[..k], '.', base);
    }
  }

  lemma BaseNameIs(name: string)
    ensures '.' !in BaseName(name) && Lower(BaseName(name)) == BaseName(name)
  {
    var n, b := Lower(name), BaseName(name);
    var d := LastIndex(n, '.');
    forall i | 0 <= i < |b| ensures Lower(b)[i] == b[i] != '.' {
      assert b[i] == n[d + 1 + i] == LowChar(name[d + 1 + i]);
    }
    assert Lower(b) == b;
  }

  /** The rewriter's test: a table is filtered exactly when it is named so. A configured name with a schema names
      none. */
  lemma TenantTableIff(config: Config, name: string)
    ensures IsTenantTable(config, name) <==> NamesTenantTable(config, name)
  {
    hide LastIndex, EndsInName, Lower;
    BaseNameIs(name);
    forall t | t in config.tenantTables
      ensures EqualFold(t, BaseName(name)) <==> '.' !in t && EndsInName(Lower(name), Lower(t))
    {
      LowerKeepsDots(t);
      if '.' !in t {
        AfterLastDot(Lower(name), Lower(t));
      }
    }
  }

  /** A name and the same name in a schema are tenant tables exactly when the name is configured, in any letter case. */
  lemma SchemaStripped(config: Config, schema: string, base: string)
    requires '.' !in base
    ensures NamesTenantTable(config, base) <==> exists t :: t in config.tenantTables && Lower(t) == Lower(base)
    ensures NamesTenantTable(config, schema + "." + base) <==>
            exists t :: t in config.tenantTables && Lower(t) == Lower(base)
  {
    LowerConcat(schema + ".", base);
    LowerConcat(schema, ".");
    var n, l := Lower(base), Lower(schema + "." + base);
    assert l == Lower(schema) + "." + n;
    LowerKeepsDots(base);
    forall t | t in config.tenantTables
      ensures '.' !in t && EndsInName(n, Lower(t)) <==> Lower(t) == n
      ensures '.' !in t && EndsInName(l, Lower(t)) <==> Lower(t) == n
    {
      LowerKeepsDots(t);
      hide Lower;
      if '.' !in t {
        AfterLastDot(n, Lower(t));
        AfterLastDot(l, Lower(t));
        LastIndexNone(n, '.');
        LastAt(Lower(schema), '.', n);
        assert "." == ['.'];
      }
    }
  }

  function TenantTablesOf(config: Config, tables: seq<TableRef>): seq<TableRef> {
    if tables == [] then []
    else
      TenantTablesOf(config, tables[..|tables| - 1]) +
      (if IsTenantTable(config, tables[|tables| - 1].name) then [tables[|tables| - 1]] else [])
  }

  lemma {:induction false} TenantTablesNamed(config: Config, tables: seq<TableRef>)
    ensures forall t :: t in TenantTablesOf(config, tables) <==> t in tables && NamesTenantTable(config, t.name)
  {
    hide IsTenantTable, NamesTenantTable;
    if tables != [] {
      var init, last := tables[..|tables| - 1], tables[|tables| - 1];
      TenantTablesNamed(config, init);
      TenantTableIff(config, last.name);
      assert tables == init + [last];
    }
  }

  /** The tables stay in their order. */
  lemma {:induction false} TenantTablesConcat(config: Config, a: seq<TableRef>, b: seq<TableRef>)
    ensures TenantTablesOf(config, a + b) == TenantTablesOf(config, a) + TenantTablesOf(config, b)
  {
    if b == [] {
      assert a + b == a && TenantTablesOf(config, a) + [] == TenantTablesOf(config, a);
    } else {
      var s := a + b;
      assert s[..|s| - 1] == a + b[..|b| - 1] && s[|s| - 1] == b[|b| - 1];
      hide IsTenantTable;
      TenantTablesConcat(config, a, b[..|b| - 1]);
    }
  }

  method FilterTenantTables(config: Config, tables: seq<TableRef>) returns (result: seq<TableRef>)
    ensures result == TenantTablesOf(config, tables)
    ensures forall t :: t in result <==> t in tables && NamesTenantTable(config, t.name)
  {
    hide NamesTenantTable;
    TenantTablesNamed(config, tables);
    result := [];
    for i := 0 to |tables|
      invariant result == TenantTablesOf(config, tables[..i])
    {
      var tableName := BaseName(tables[i].name);
      var found := false;
      for j := 0 to |config.tenantTables|
        invariant found <==> exists t :: t in config.tenantTables[..j] && EqualFold(t, tableName)
      {
        if EqualFold(config.tenantTables[j], tableName) {
          found := true;
        }
      }
      assert config.tenantTables[..|config.tenantTables|] == config.tenantTables;
      assert tables[..i + 1][..i] == tables[..i];
      if found {
        result := result + [tables[i]];
      }
    }
    assert tables[..|tables|] == tables;
  }

  // ----- The condition -----

  function Qualifier(t: TableRef): string {
    if t.alias != "" then t.alias else t.name
  }

  function Equals(style: Style, column: string, position: int): string {
    column + " = " + Placeholder(style, position)
  }

  /** One equation per tenant table, numbered from `first` on. */
  function FilterText(style: Style, column: string, tables: seq<TableRef>, first: int): string {
    if tables == [] then ""
    else
      var n := |tables| - 1;
      FilterText(style, column, tables[..n], first) + (if n > 0 then " AND " else "") +
      Equals(style, Qualifier(tables[n]) + "." + column, first + n)
  }

  function Repeat(v: Value, n: nat): (r: seq<Value>)
    ensures |r| == n && forall i :: 0 <= i < n ==> r[i] == v
  {
    seq(n, _ => v)
  }

  /** The query with `filter` in its WHERE clause: the old conditions go in parentheses, up to the first of `ends`;
      without a WHERE clause one is added before the first of `ends`. */
  function InjectWhere(query: string, filter: string, ends: seq<string>, trimBefore: bool): string
    requires "" !in ends
  {
    var u := Upper(query);
    var w := Index(u, " WHERE ");
    if w != -1 then
      var e := w + 7 + FirstOf(u[w + 7..], ends).0;
      query[..w + 7] + filter + " AND (" + Trim(query[w + 7..e]) + ")" + query[e..]
    else
      var p := FirstOf(u, ends).0;
      (if trimBefore then Trim(query[..p]) else query[..p]) + " WHERE " + filter + query[p..]
  }

  lemma EndsNonEmpty()
    ensures "" !in SelectEnds() && "" !in MutationEnds()
  {
  }

  method InjectCondition(query: string, filter: string, ends: seq<string>, trimBefore: bool) returns (result: string)
    requires "" !in ends
    ensures result == InjectWhere(query, filter, ends, trimBefore)
  {
    hide FirstOf, Index, Trim, Upper;
    var upper := Upper(query);
    var wherePos := Index(upper, " WHERE ");
    if wherePos != -1 {
      var afterWhere := query[wherePos + 7..];
      var afterWhereUpper := upper[wherePos + 7..];
      var whereEndPos, _ := FindFirst(afterWhereUpper, ends);
      var before := query[..wherePos + 7];
      var conditions := afterWhere[..whereEndPos];
      var after := afterWhere[whereEndPos..];
      assert conditions == query[wherePos + 7..wherePos + 7 + whereEndPos];
      assert after == query[wherePos + 7 + whereEndPos..];
      result := before + filter + " AND (" + Trim(conditions) + ")" + after;
    } else {
      var insertPos, _ := FindFirst(upper, ends);
      var before := if trimBefore then Trim(query[..insertPos]) else query[..insertPos];
      result := before + " WHERE " + filter + query[insertPos..];
    }
  }

  // ----- SELECT -----

  function InjectSelect(config: Config, style: Style, query: string, tenant: Value,
                        args: seq<Value>): Outcome<Rewritten> {
    EndsNonEmpty();
    match ExtractTables(query)
    case Panic => Panic
    case Err(m) => Err(m)
    case Ok(all) =>
      var tables := TenantTablesOf(config, all);
      if tables == [] then Ok((query, args))
      else
        var filter := FilterText(style, config.tenantColumn, tables, ExistingPlaceholders(style, query) + 1);
        var tenants := Repeat(tenant, |tables|);
        Ok((InjectWhere(query, filter, SelectEnds(), true), if style == Question then tenants + args
            else args + tenants))
  }

  method InjectSelectFilter(config: Config, style: Style, query: string, tenant: Value, args: seq<Value>)
    returns (r: Outcome<Rewritten>)
    ensures r == InjectSelect(config, style, query, tenant, args)
  {
    EndsNonEmpty();
    hide InjectWhere, ExtractTables, SelectEnds, ExistingPlaceholders, Equals, Qualifier, TenantTablesOf;
    var existing := CountPlaceholders(style, query);
    var allTables := ExtractAllTables(query);
    if allTables.Panic? {
      return Panic;
    } else if allTables.Err? {
      return Err(allTables.message);
    }
    var tables := FilterTenantTables(config, allTables.value);
    if |tables| == 0 {
      return Ok((query, args));
    }
    var filter := "";
    var tenantArgs: seq<Value> := [];
    var nextPlaceholder := existing + 1;
    for i := 0 to |tables|
      invariant filter == FilterText(style, config.tenantColumn, tables[..i], existing + 1)
      invariant tenantArgs == Repeat(tenant, i) && nextPlaceholder == existing + 1 + i
    {
      assert tables[..i + 1][..i] == tables[..i];
      if i > 0 {
        filter := filter + " AND ";
      } else {
        assert filter + "" == filter;
      }
      filter := filter + Equals(style, Qualifier(tables[i]) + "." + config.tenantColumn, nextPlaceholder);
      tenantArgs := tenantArgs + [tenant];
      nextPlaceholder := nextPlaceholder + 1;
    }
    assert tables[..|tables|] == tables;
    var result := InjectCondition(query, filter, SelectEnds(), true);
    r := Ok((result, if style == Question then tenantArgs + args else args + tenantArgs));
  }

  // ----- UPDATE and DELETE -----

  /** How many `?` stand before the WHERE clause. */
  function SetArgCount(query: string): nat {
    var w := Index(Upper(query), " WHERE ");
    if w != -1 then Count(query[..w], '?') else Count(query, '?')
  }

  /** SET arguments, then the tenant, then WHERE arguments; slicing panics when there are too few arguments. */
  function UpdateArgs(style: Style, query: string, tenants: seq<Value>, args: seq<Value>): Outcome<seq<Value>> {
    if style != Question then Ok(args + tenants)
    else if SetArgCount(query) > |args| then Panic
    else Ok(args[..SetArgCount(query)] + tenants + args[SetArgCount(query)..])
  }

  function MutationText(config: Config, style: Style, query: string): string {
    EndsNonEmpty();
    InjectWhere(query, Equals(style, config.tenantColumn, ExistingPlaceholders(style, query) + 1), MutationEnds(),
                false)
  }

  function InjectUpdate(config: Config, style: Style, query: string, tenant: Value,
                        args: seq<Value>): Outcome<Rewritten> {
    match UpdateArgs(style, query, [tenant], args)
    case Panic => Panic
    case Err(m) => Err(m)
    case Ok(out) => Ok((MutationText(config, style, query), out))
  }

  function InjectDelete(config: Config, style: Style, query: string, tenant: Value,
                        args: seq<Value>): Outcome<Rewritten> {
    Ok((MutationText(config, style, query), if style == Question then [tenant] + args else args + [tenant]))
  }

  method InjectUpdateFilter(config: Config, style: Style, query: string, tenant: Value, args: seq<Value>)
    returns (r: Outcome<Rewritten>)
    ensures r == InjectUpdate(config, style, query, tenant, args)
  {
    EndsNonEmpty();
    hide InjectWhere, ExistingPlaceholders, Index, MutationEnds;
    var existing := CountPlaceholders(style, query);
    var result := InjectCondition(query, Equals(style, config.tenantColumn, existing + 1), MutationEnds(), false);
    var out;
    if style == Question {
      var upper := Upper(query);
      var wherePos := Index(upper, " WHERE ");
      var setArgCount := if wherePos != -1 then Count(query[..wherePos], '?') else Count(query, '?');
      if setArgCount > |args| {
        return Panic;
      }
      out := args[..setArgCount] + [tenant] + args[setArgCount..];
    } else {
      out := args + [tenant];
    }
    r := Ok((result, out));
  }

  method InjectDeleteFilter(config: Config, style: Style, query: string, tenant: Value, args: seq<Value>)
    returns (r: Outcome<Rewritten>)
    ensures r == InjectDelete(config, style, query, tenant, args)
  {
    EndsNonEmpty();
    hide InjectWhere, ExistingPlaceholders, MutationEnds;
    var existing := CountPlaceholders(style, query);
    var result := InjectCondition(query, Equals(style, config.tenantColumn, existing + 1), MutationEnds(), false);
    r := Ok((result, if style == Question then [tenant] + args else args + [tenant]));
  }

  // ----- Statements as they are written -----

  /** A statement: everything before WHERE, the condition, everything after it. */
  datatype Statement = Statement(head: string, cond: Option<string>, tail: string)

  function WhereText(cond: Option<string>): string {
    match cond
    case None => ""
    case Some(c) => " WHERE " + c
  }

  function StatementText(s: Statement): string {
    s.head + (WhereText(s.cond) + s.tail)
  }

  function Conjoined(filter: string, cond: Option<string>): string {
    match cond
    case None => filter
    case Some(c) => filter + " AND (" + Trim(c) + ")"
  }

  function WithFilter(s: Statement, filter: string): Statement {
    s.(cond := Some(Conjoined(filter, s.cond)))
  }

  /** The parts contain no word that opens one of the clauses after them, and the tail, if any, opens with one. */
  ghost predicate GoodStatement(s: Statement, ends: seq<string>, openers: seq<string>) {
    && OpensAll(ends, openers) && "" !in ends
    && Clean(s.head, "WHERE") && CleanOf(s.head, openers) && Trimmed(s.head)
    && (s.tail == "" || StartsWithOneOf(s.tail, ends))
    && match s.cond {
         case None => Absent(" WHERE ", Upper(s.tail))
         case Some(c) => CleanOf(c, openers)
       }
  }

  /** On a printed statement, injection is conjunction with the condition and nothing else. */
  lemma InjectWhereStatement(s: Statement, filter: string, ends: seq<string>, openers: seq<string>, trimBefore: bool)
    requires GoodStatement(s, ends, openers)
    ensures InjectWhere(StatementText(s), filter, ends, trimBefore) == StatementText(WithFilter(s, filter))
  {
    if s.cond.None? {
      InjectWhereNone(s, filter, ends, openers, trimBefore);
    } else {
      InjectWhereSome(s, filter, ends, openers, trimBefore);
    }
  }

  lemma GoodParts(s: Statement, ends: seq<string>, openers: seq<string>)
    requires GoodStatement(s, ends, openers)
    ensures OpensAll(ends, openers) && "" !in ends && Clean(s.head, "WHERE") && CleanOf(s.head, openers)
    ensures Trimmed(s.head) && (s.tail == "" || StartsWithOneOf(s.tail, ends))
    ensures s.cond.Some? ==> CleanOf(s.cond.value, openers)
  {
  }

  lemma InjectWhereNone(s: Statement, filter: string, ends: seq<string>, openers: seq<string>, trimBefore: bool)
    requires GoodStatement(s, ends, openers) && s.cond.None?
    ensures InjectWhere(StatementText(s), filter, ends, trimBefore) == StatementText(WithFilter(s, filter))
  {
    hide *;
    GoodParts(s, ends, openers);
    WhereAbsent(s, ends, openers);
    FirstOfAt(s.head, s.tail, ends, openers);
    TrimOfTrimmed(s.head);
    NoneTexts(s, filter);
    var q := s.head + s.tail;
    assert q[..|s.head|] == s.head && q[|s.head|..] == s.tail;
    InjectWhereUnfold(q, filter, ends, trimBefore, |s.head|);
  }

  lemma NoneTexts(s: Statement, filter: string)
    requires s.cond.None?
    ensures StatementText(s) == s.head + s.tail
    ensures StatementText(WithFilter(s, filter)) == s.head + " WHERE " + filter + s.tail
  {
    assert WhereText(s.cond) + s.tail == s.tail;
    assert s.head + " WHERE " + filter + s.tail == s.head + (" WHERE " + filter + s.tail);
  }

  lemma InjectWhereUnfold(q: string, filter: string, ends: seq<string>, trimBefore: bool, p: nat)
    requires "" !in ends && Index(Upper(q), " WHERE ") == -1 && FirstOf(Upper(q), ends).0 == p
    ensures InjectWhere(q, filter, ends, trimBefore) ==
            (if trimBefore then Trim(q[..p]) else q[..p]) + " WHERE " + filter + q[p..]
  {
    hide FirstOf, Index, Trim, Upper;
  }

  lemma InjectWhereUnfoldSome(q: string, filter: string, ends: seq<string>, trimBefore: bool, w: nat, n: nat)
    requires "" !in ends && Index(Upper(q), " WHERE ") == w
    requires w + 7 <= |q| && FirstOf(Upper(q)[w + 7..], ends).0 == n
    ensures InjectWhere(q, filter, ends, trimBefore) ==
            q[..w + 7] + filter + " AND (" + Trim(q[w + 7..w + 7 + n]) + ")" + q[w + 7 + n..]
  {
    hide FirstOf, Index, Trim, Upper;
  }

  lemma InjectWhereSome(s: Statement, filter: string, ends: seq<string>, openers: seq<string>, trimBefore: bool)
    requires GoodStatement(s, ends, openers) && s.cond.Some?
    ensures InjectWhere(StatementText(s), filter, ends, trimBefore) == StatementText(WithFilter(s, filter))
  {
    hide *;
    GoodParts(s, ends, openers);
    var c := s.cond.value;
    var rest := " WHERE " + (c + s.tail);
    OpensOn();
    WhereUpper();
    StartsLiteral(" WHERE ", c + s.tail);
    IndexAt(s.head, rest, " WHERE ", "WHERE");
    FirstOfAt(c, s.tail, ends, openers);
    CutWhere(s.head, c, s.tail);
    PrintWithFilter(s, filter, c);
    SomeText(s, c);
    InjectWhereUnfoldSome(s.head + rest, filter, ends, trimBefore, |s.head|, |c|);
  }

  lemma SomeText(s: Statement, c: string)
    requires s.cond == Some(c)
    ensures StatementText(s) == s.head + (" WHERE " + (c + s.tail))
  {
    assert WhereText(s.cond) + s.tail == " WHERE " + (c + s.tail);
  }

  lemma PrintWithFilter(s: Statement, filter: string, c: string)
    requires s.cond == Some(c)
    ensures StatementText(WithFilter(s, filter)) == s.head + " WHERE " + filter + " AND (" + Trim(c) + ")" + s.tail
  {
    hide Trim;
    var t := Trim(c);
    assert s.head + ((" WHERE " + (filter + " AND (" + t + ")")) + s.tail) ==
           s.head + " WHERE " + filter + " AND (" + t + ")" + s.tail;
  }

  lemma CutWhere(head: string, c: string, tail: string)
    ensures var q := head + (" WHERE " + (c + tail));
            && q[..|head| + 7] == head + " WHERE "
            && Upper(q)[|head| + 7..] == Upper(c + tail)
            && q[|head| + 7..|head| + 7 + |c|] == c
            && q[|head| + 7 + |c|..] == tail
  {
    var q := head + (" WHERE " + (c + tail));
    assert q == (head + " WHERE ") + (c + tail);
  }

  lemma WhereAbsent(s: Statement, ends: seq<string>, openers: seq<string>)
    requires GoodStatement(s, ends, openers) && s.cond.None?
    ensures Index(Upper(s.head + s.tail), " WHERE ") == -1
  {
    OpensOn();
    NoEarlyMatch(s.head, s.tail, " WHERE ", "WHERE");
    UpperConcat(s.head, s.tail);
    var i := Index(Upper(s.head + s.tail), " WHERE ");
    MatchConcat(Upper(s.head), Upper(s.tail), i, " WHERE ");
  }
}
