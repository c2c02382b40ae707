/** The rewriting entry point with its cache, and why the cache cannot be noticed. */
module TenantDb {
  import opened Text
  import opened Placeholders
  import opened FromClause
  import opened Rewriter
  import opened InsertRewriter
  import opened QueryCaching

  datatype Kind = Select | UpdateKind | DeleteKind | Insert | Other

  function KindOf(query: string): Kind {
    var u := Upper(query);
    if HasPrefix(u, "SELECT") then Select
    else if HasPrefix(u, "UPDATE") then UpdateKind
    else if HasPrefix(u, "DELETE") then DeleteKind
    else if HasPrefix(u, "INSERT") then Insert
    else Other
  }

  /** The rewriting without a cache, of a trimmed query. */
  function Fresh(config: Config, style: Style, query: string, tenant: Value, args: seq<Value>): Outcome<Rewritten> {
    match KindOf(query)
    case Select => InjectSelect(config, style, query, tenant, args)
    case UpdateKind => InjectUpdate(config, style, query, tenant, args)
    case DeleteKind => InjectDelete(config, style, query, tenant, args)
    case Insert => InjectInsert(config, style, query, tenant, args)
    case Other => Ok((query, args))
  }

  /** The arguments a cache hit puts together from the number of tenant arguments alone. */
  function HitArgs(style: Style, query: string, tenant: Value, argCount: nat, args: seq<Value>): Outcome<seq<Value>> {
    var tenants := Repeat(tenant, argCount);
    if style != Question then Ok(args + tenants)
    else if KindOf(query) == UpdateKind then UpdateArgs(style, query, tenants, args)
    else Ok(tenants + args)
  }

  function Hit(style: Style, query: string, tenant: Value, transformed: string, argCount: nat,
               args: seq<Value>): Outcome<Rewritten> {
    match HitArgs(style, query, tenant, argCount, args)
    case Ok(out) => Ok((transformed, out))
    case Err(m) => Err(m)
    case Panic => Panic
  }

  /** What the cache may store for a query: the text and the number of tenant arguments do not depend on the tenant or
      the arguments. None for queries whose rewriting fails or that are never stored. */
  function Template(config: Config, style: Style, query: string): Option<(string, nat)> {
    match KindOf(query)
    case Select =>
      (match InjectSelect(config, style, query, Null, []) case Ok((text, out)) => Some((text, |out|)) case _ => None)
    case UpdateKind => Some((MutationText(config, style, query), 1))
    case DeleteKind => Some((MutationText(config, style, query), 1))
    case Insert =>
      (match InjectInsert(config, style, query, Null, []) case Ok((text, out)) => Some((text, |out|)) case _ => None)
    case Other => None
  }

  /** A cache hit on the template of a query gives what the fresh rewriting gives: always, except for an INSERT under a
      numbered style, where the hit appends the tenant argument that the fresh rewriting prepends. There the two agree
      exactly when nothing was added or all arguments equal the tenant. */
  lemma HitIsFresh(config: Config, style: Style, query: string, tenant: Value, args: seq<Value>)
    requires Template(config, style, query).Some?
    ensures var (text, n) := Template(config, style, query).value;
            Hit(style, query, tenant, text, n, args) == Fresh(config, style, query, tenant, args) <==>
            KindOf(query) != Insert || style == Question || n == 0 || forall a :: a in args ==> a == tenant
  {
    hide KindOf, MutationText, InjectSelect, InjectInsert;
    var (text, n) := Template(config, style, query).value;
    match KindOf(query) {
      case Select => SelectTemplate(config, style, query, tenant, args);
      case UpdateKind => assert Repeat(tenant, 1) == [tenant];
      case DeleteKind => assert Repeat(tenant, 1) == [tenant];
      case Insert =>
        InsertTemplate(config, style, query, tenant, args);
        Rotate(tenant, args);
      case Other =>
    }
  }

  lemma SelectTemplate(config: Config, style: Style, query: string, tenant: Value, args: seq<Value>)
    requires InjectSelect(config, style, query, Null, []).Ok?
    ensures var (text, out) := InjectSelect(config, style, query, Null, []).value;
            InjectSelect(config, style, query, tenant, args) ==
            Ok((text, if style == Question then Repeat(tenant, |out|) + args else args + Repeat(tenant, |out|)))
  {
    hide ExtractTables, TenantTablesOf, InjectWhere, SelectEnds, FilterText, ExistingPlaceholders;
    var tables := TenantTablesOf(config, ExtractTables(query).value);
    var (text, out) := InjectSelect(config, style, query, Null, []).value;
    var n := |tables|;
    if n == 0 {
      assert tables == [];
      assert out == [];
      assert args + Repeat(tenant, 0) == args == Repeat(tenant, 0) + args;
    } else {
      assert Repeat(Null, n) + [] == Repeat(Null, n) == [] + Repeat(Null, n);
      assert |out| == n;
    }
  }

  lemma InsertTemplate(config: Config, style: Style, query: string, tenant: Value, args: seq<Value>)
    requires InjectInsert(config, style, query, Null, []).Ok?
    ensures var (text, out) := InjectInsert(config, style, query, Null, []).value;
            |out| <= 1 && InjectInsert(config, style, query, tenant, args) == Ok((text, Repeat(tenant, |out|) + args))
  {
    hide Index, Trim, NewValues, CutAt, ReplaceFirst, ColumnExists;
    assert [] + args == args && [Null] + [] == [Null];
    assert Repeat(tenant, 0) == [] && Repeat(tenant, 1) == [tenant];
  }

  /** Prepending and appending a value agree exactly when it equals all the others. */
  lemma {:induction false} Rotate(v: Value, args: seq<Value>)
    ensures [v] + args == args + [v] <==> forall a :: a in args ==> a == v
    ensures [v] + args == args + Repeat(v, 1) <==> [v] + args == args + [v]
    ensures Repeat(v, 1) + args == [v] + args && args + Repeat(v, 0) == args == Repeat(v, 0) + args
  {
    assert Repeat(v, 1) == [v] && Repeat(v, 0) == [];
    if [v] + args == args + [v] {
      RotateAll(v, args, |args|);
    }
    if forall a :: a in args ==> a == v {
      assert forall i :: 0 <= i < |args| ==> args[i] in args;
      assert forall i :: 0 <= i <= |args| ==> ([v] + args)[i] == (args + [v])[i];
    }
  }

  lemma {:induction false} RotateAll(v: Value, args: seq<Value>, n: nat)
    requires n <= |args| && [v] + args == args + [v]
    ensures forall i :: 0 <= i < n ==> args[i] == v
  {
    if n > 0 {
      RotateAll(v, args, n - 1);
      assert ([v] + args)[n - 1] == (args + [v])[n - 1];
    }
  }

  /** A fresh rewriting that succeeds on a query that is stored has the template's text and count. */
  lemma FreshTemplate(config: Config, style: Style, query: string, tenant: Value, args: seq<Value>)
    requires KindOf(query) != Other && Fresh(config, style, query, tenant, args).Ok?
    ensures var (text, out) := Fresh(config, style, query, tenant, args).value;
            |out| >= |args| && Template(config, style, query) == Some((text, |out| - |args|))
  {
    hide KindOf, MutationText, ExtractTables, TenantTablesOf, InjectWhere, SelectEnds, FilterText, ExistingPlaceholders,
         Index, Trim, NewValues, CutAt, ReplaceFirst, ColumnExists, SetArgCount;
    match KindOf(query) {
      case Select =>
      case UpdateKind => assert SetArgCount(query) <= |args| ==>
                           |args[..SetArgCount(query)] + [tenant] + args[SetArgCount(query)..]| == |args| + 1;
      case DeleteKind =>
      case Insert =>
    }
  }

  /** What a trimmed query is answered by: its first word alone decides between the four rewriters. Every other
      statement passes through unchanged. After a hit in the cache, an INSERT under a numbered style has its tenant
      argument last. */
  ghost predicate Answers(config: Config, style: Style, query: string, tenant: Value, args: seq<Value>, hit: bool,
                          r: Outcome<Rewritten>) {
    && (OpensWithWord(query, "SELECT") ==> r == InjectSelect(config, style, query, tenant, args))
    && (OpensWithWord(query, "UPDATE") ==> r == InjectUpdate(config, style, query, tenant, args))
    && (OpensWithWord(query, "DELETE") ==> r == InjectDelete(config, style, query, tenant, args))
    && (OpensWithWord(query, "INSERT") ==>
          if hit && style != Question then TenantLast(InjectInsert(config, style, query, tenant, args), tenant, args, r)
          else r == InjectInsert(config, style, query, tenant, args))
    && ((!OpensWithWord(query, "SELECT") && !OpensWithWord(query, "UPDATE") && !OpensWithWord(query, "DELETE")
         && !OpensWithWord(query, "INSERT")) ==>
          r == Ok((query, args)))
  }

  predicate OpensWithWord(query: string, word: string) {
    |word| <= |query| && Upper(query[..|word|]) == word
  }

  /** A statement of one of the four kinds. */
  predicate IsRewritten(query: string) {
    OpensWithWord(query, "SELECT") || OpensWithWord(query, "UPDATE") || OpensWithWord(query, "DELETE")
    || OpensWithWord(query, "INSERT")
  }

  /** The same text with the tenant argument, if there is one, after the others. */
  ghost predicate TenantLast(direct: Outcome<Rewritten>, tenant: Value, args: seq<Value>, r: Outcome<Rewritten>) {
    && direct.Ok? && r.Ok? && r.value.0 == direct.value.0
    && (direct.value.1 == [tenant] + args ==> r.value.1 == args + [tenant])
    && (direct.value.1 == args ==> r.value.1 == args)
  }

  lemma OpensIsPrefix(query: string, word: string)
    ensures OpensWithWord(query, word) <==> HasPrefix(Upper(query), word)
  {
    if |word| <= |query| {
      assert Upper(query)[0..|word|] == Upper(query[..|word|]);
    }
  }

  lemma FreshAnswers(config: Config, style: Style, query: string, tenant: Value, args: seq<Value>, hit: bool)
    requires !hit || style == Question || KindOf(query) != Insert
    ensures Answers(config, style, query, tenant, args, hit, Fresh(config, style, query, tenant, args))
  {
    hide InjectSelect, InjectUpdate, InjectDelete, InjectInsert, OpensWithWord, TenantLast;
    KindIs(query);
    OpensIsPrefix(query, "SELECT");
    OpensIsPrefix(query, "UPDATE");
    OpensIsPrefix(query, "DELETE");
    OpensIsPrefix(query, "INSERT");
  }

  /** A query opens with one of the four words at most. */
  lemma KindIs(query: string)
    ensures KindOf(query) == Select <==> OpensWithWord(query, "SELECT")
    ensures KindOf(query) == UpdateKind <==> OpensWithWord(query, "UPDATE")
    ensures KindOf(query) == DeleteKind <==> OpensWithWord(query, "DELETE")
    ensures KindOf(query) == Insert <==> OpensWithWord(query, "INSERT")
  {
    OpensIsPrefix(query, "SELECT");
    OpensIsPrefix(query, "UPDATE");
    OpensIsPrefix(query, "DELETE");
    OpensIsPrefix(query, "INSERT");
    if |query| >= 6 {
      var word := Upper(query[..6]);
      assert "SELECT"[0] == 'S' && "UPDATE"[0] == 'U' && "DELETE"[0] == 'D' && "INSERT"[0] == 'I';
    }
  }

  /** A cache hit on the template of an INSERT has the fresh text and the tenant argument last. */
  lemma HitAnswers(config: Config, style: Style, query: string, tenant: Value, args: seq<Value>)
    requires KindOf(query) == Insert && style != Question && Template(config, style, query).Some?
    ensures var (text, n) := Template(config, style, query).value;
            Answers(config, style, query, tenant, args, true, Hit(style, query, tenant, text, n, args))
  {
    hide InjectSelect, InjectUpdate, InjectDelete, InjectInsert, OpensWithWord, KindOf;
    KindIs(query);
    InsertTemplate(config, style, query, tenant, args);
    var (text, n) := Template(config, style, query).value;
    Rotate(tenant, args);
    assert Repeat(tenant, 1) == [tenant] && Repeat(tenant, 0) == [];
    assert |[tenant] + args| == |args| + 1;
  }

  lemma StoredEntries(before: map<nat, CacheEntry>, after: map<nat, CacheEntry>, hash: nat)
    requires Keeps(after - {hash}, before)
    ensures forall h :: h in after && h != hash ==> h in before && after[h] == before[h]
  {
    forall h | h in after && h != hash ensures h in before && after[h] == before[h] {
      assert h in after - {hash};
    }
  }

  class DB {
    const config: Config
    const style: Style
    const queryCache: QueryCache
    /** The queries that have been stored so far. */
    ghost var stored: set<string>

    /** Every entry is the template of a query that was stored. */
    ghost predicate Valid()
      reads this, queryCache
    {
      && queryCache.Valid()
      && forall h :: h in queryCache.entries ==>
           var e := queryCache.entries[h];
           && e.originalQuery in stored && e.isTenantQuery && e.argCount >= 0
           && Template(config, style, e.originalQuery) == Some((e.transformedQuery, e.argCount))
    }

    constructor (config: Config, style: Style, hash: string -> nat)
      ensures Valid() && fresh(queryCache) && queryCache.hashQuery == hash && stored == {}
      ensures this.config == config && this.style == style
    {
      this.config := config;
      this.style := style;
      queryCache := new QueryCache(hash, 1000);
      stored := {};
    }

    /** The hash tells the query at hand from all the stored ones. */
    ghost predicate HashDistinguishes(query: string)
      reads this
    {
      forall q :: q in stored && queryCache.hashQuery(q) == queryCache.hashQuery(query) ==> q == query
    }

    /** Cache transparency: whatever was stored, evicted and cleared before, the result is that of the rewriter for the
        query's first word; only an INSERT under a numbered style that is in the cache has its arguments in the order of
        a hit. A statement that was rewritten is in the cache afterwards; any other leaves the cache as it was. */
    method InjectTenantFilter(query: string, tenant: Value, args: seq<Value>) returns (r: Outcome<Rewritten>)
      requires Valid() && HashDistinguishes(Trim(query))
      modifies this, queryCache
      ensures Valid() && old(stored) <= stored <= old(stored) + {Trim(query)}
      ensures queryCache.gets == old(queryCache.gets) + 1
      ensures Answers(config, style, Trim(query), tenant, args,
                      queryCache.hashQuery(Trim(query)) in old(queryCache.entries), r)
      ensures r.Ok? && IsRewritten(Trim(query)) ==> queryCache.hashQuery(Trim(query)) in queryCache.entries
      ensures !r.Ok? || !IsRewritten(Trim(query)) || queryCache.hashQuery(Trim(query)) in old(queryCache.entries) ==>
                queryCache.entries == old(queryCache.entries)
    {
      hide KindOf, Template, Fresh, Hit, Trim, Answers, OpensWithWord;
      var q := Trim(query);
      KindIs(q);
      ghost var inCache := queryCache.hashQuery(q) in queryCache.entries;
      if !inCache || style == Question || KindOf(q) != Insert {
        FreshAnswers(config, style, q, tenant, args, inCache);
      }
      var cached := queryCache.Get(q);
      if cached.Some? {
        EntryIsTemplate(q);
      }
      if cached.Some? && cached.value.isTenantQuery {
        var e := cached.value;
        HitIsFresh(config, style, q, tenant, args);
        if KindOf(q) == Insert && style != Question {
          HitAnswers(config, style, q, tenant, args);
        }
        r := CacheHit(q, tenant, e.transformedQuery, e.argCount, args);
        return;
      }
      r := Rewrite(q, tenant, args);
      if r.Ok? && KindOf(q) != Other {
        FreshTemplate(config, style, q, tenant, args);
        Store(q, r.value.0, |r.value.1| - |args|);
      }
    }

    method Store(query: string, text: string, argCount: nat)
      requires Valid() && Template(config, style, query) == Some((text, argCount))
      modifies this, queryCache
      ensures Valid() && stored == old(stored) + {query} && queryCache.gets == old(queryCache.gets)
      ensures queryCache.hashQuery(query) in queryCache.entries
    {
      hide Template;
      stored := stored + {query};
      queryCache.Put(query, text, argCount, true);
      StoredEntries(old(queryCache.entries), queryCache.entries, queryCache.hashQuery(query));
    }

    /** A cached entry under the hash of `query` is that query's template. */
    lemma EntryIsTemplate(query: string)
      requires Valid() && HashDistinguishes(query) && queryCache.hashQuery(query) in queryCache.entries
      ensures var e := queryCache.entries[queryCache.hashQuery(query)];
              e.isTenantQuery && e.argCount >= 0 && Template(config, style, query) ==
                Some((e.transformedQuery, e.argCount))
    {
      hide Template;
    }

    /** The argument list of a cache hit: tenant arguments first, last, or between SET and WHERE arguments. */
    method CacheHit(query: string, tenant: Value, transformed: string, argCount: nat,
                    args: seq<Value>) returns (r: Outcome<Rewritten>)
      ensures r == Hit(style, query, tenant, transformed, argCount, args)
    {
      hide Index;
      var tenantArgs: seq<Value> := [];
      for i := 0 to argCount
        invariant tenantArgs == Repeat(tenant, i)
      {
        tenantArgs := tenantArgs + [tenant];
      }
      if style == Question {
        var upper := Upper(query);
        if KindOf(query) == UpdateKind {
          var wherePos := Index(upper, " WHERE ");
          var setArgCount := if wherePos != -1 then Count(query[..wherePos], '?') else Count(query, '?');
          if setArgCount > |args| {
            return Panic;
          }
          r := Ok((transformed, args[..setArgCount] + tenantArgs + args[setArgCount..]));
        } else {
          r := Ok((transformed, tenantArgs + args));
        }
      } else {
        r := Ok((transformed, args + tenantArgs));
      }
    }

    method Rewrite(query: string, tenant: Value, args: seq<Value>) returns (r: Outcome<Rewritten>)
      ensures r == Fresh(config, style, query, tenant, args)
    {
      match KindOf(query) {
        case Select => r := InjectSelectFilter(config, style, query, tenant, args);
        case UpdateKind => r := InjectUpdateFilter(config, style, query, tenant, args);
        case DeleteKind => r := InjectDeleteFilter(config, style, query, tenant, args);
        case Insert => r := InjectInsertFilter(config, style, query, tenant, args);
        case Other => r := Ok((query, args));
      }
    }

    method ClearQueryCache()
      requires Valid()
      modifies queryCache
      ensures Valid() && queryCache.entries == map[] && queryCache.gets == 0
    {
      queryCache.Clear();
    }
  }
}
