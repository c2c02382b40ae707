/** Tables as sequences of rows, joins, and the rows a condition keeps. */
module Relations {
  import opened Text
  import opened Placeholders
  import opened Conditions
  import opened FromClause
  import opened Rewriter

  type Row = map<string, Value>
  type Database = map<string, seq<Row>>

  /** A row under the name by which the query refers to its table. */
  datatype Binding = Binding(qual: string, row: Row)
  type Env = seq<Binding>

  /** The truth of the atoms that are not equations between a column and an argument. */
  type AtomSense = (Env, seq<Lexeme>) -> Truth

  function Always(): AtomSense {
    (env, words) => True
  }

  // ----- Atoms -----

  predicate AllLits(w: seq<Piece>) {
    forall i :: 0 <= i < |w| ==> w[i].Lit?
  }

  function Letters(w: seq<Piece>): (s: string)
    requires AllLits(w)
    ensures |s| == |w|
  {
    seq(|w|, i requires 0 <= i < |w| => w[i].c)
  }

  function Qualified(env: Env, qual: string, column: string): Option<Value> {
    if env == [] then None
    else if env[0].qual == qual then (if column in env[0].row then Some(env[0].row[column]) else None)
    else Qualified(env[1..], qual, column)
  }

  function Unqualified(env: Env, column: string): Option<Value> {
    if env == [] then None
    else if column in env[0].row then Some(env[0].row[column])
    else Unqualified(env[1..], column)
  }

  /** The value of "qualifier.column" or "column"; None for a NULL or missing one. */
  function ColumnValue(env: Env, name: string): Option<Value> {
    var d := LastIndex(name, '.');
    if d == -1 then Unqualified(env, name) else Qualified(env, name[..d], name[d + 1..])
  }

  predicate IsEquation(words: seq<Lexeme>) {
    && |words| == 3 && words[0].Word? && words[1] == Word([Lit('=')]) && words[2].Word?
    && AllLits(words[0].w) && |words[2].w| == 1 && words[2].w[0].Bound?
  }

  function Compare(a: Option<Value>, b: Value): Truth {
    if a.None? || a.value == Null || b == Null then Unknown else if a.value == b then True else False
  }

  function AtomTruth(env: Env, words: seq<Lexeme>, sense: AtomSense): Truth {
    if IsEquation(words) then Compare(ColumnValue(env, Letters(words[0].w)), words[2].w[0].v) else sense(env, words)
  }

  /** WHERE and ON keep a row when their condition is true, and every row when there is none. */
  predicate Holds(cond: Option<seq<Piece>>, env: Env, sense: AtomSense) {
    match cond
    case None => true
    case Some(t) =>
      match Parse(t)
      case None => false
      case Some(c) => Eval(c, words => AtomTruth(env, words, sense)) == True
  }

  // ----- The tenant's slice -----

  predicate Owned(row: Row, column: string, v: Value) {
    column in row && row[column] == v
  }

  function OwnedRows(rows: seq<Row>, column: string, v: Value): seq<Row> {
    if rows == [] then []
    else (if Owned(rows[0], column, v) then [rows[0]] else []) + OwnedRows(rows[1..], column, v)
  }

  /** The database with each tenant table restricted to the tenant's rows. */
  function Slice(db: Database, config: Config, v: Value): Database {
    map name | name in db ::
      if IsTenantTable(config, name) then OwnedRows(db[name], config.tenantColumn, v) else db[name]
  }

  function Fetch(db: Database, t: TableRef): seq<Row> {
    if BaseName(t.name) in db then db[BaseName(t.name)] else []
  }

  lemma BaseNameIdempotent(name: string)
    ensures BaseName(BaseName(name)) == BaseName(name)
  {
    BaseNameIs(name);
    LastIndexNone(BaseName(name), '.');
  }

  /** A name without a schema and the same name in a schema both fetch the rows stored under the lower-case name. */
  lemma FetchStripped(db: Database, schema: string, base: string, alias: string)
    requires '.' !in base
    ensures Fetch(db, TableRef(base, alias)) == Fetch(db, TableRef(schema + "." + base, alias)) ==
            if Lower(base) in db then db[Lower(base)] else []
  {
    LowerKeepsDots(base);
    LastIndexNone(Lower(base), '.');
    LowerConcat(schema + ".", base);
    LowerConcat(schema, ".");
    var n := Lower(schema) + ['.'] + Lower(base);
    assert Lower(schema + "." + base) == n;
    LastAt(Lower(schema), '.', Lower(base));
    assert n[|Lower(schema)| + 1..] == Lower(base);
  }

  /** The slice keeps every row of the other tables, and of a tenant table those that carry the tenant. */
  lemma SliceOf(db: Database, config: Config, v: Value, name: string)
    requires name in db
    ensures Slice(db, config, v).Keys == db.Keys
    ensures Slice(db, config, v)[name] ==
            if NamesTenantTable(config, name) then OwnedRows(db[name], config.tenantColumn, v) else db[name]
  {
    TenantTableIff(config, name);
  }

  lemma FetchSlice(db: Database, config: Config, v: Value, t: TableRef)
    ensures Fetch(Slice(db, config, v), t) ==
            if IsTenantTable(config, t.name) then OwnedRows(Fetch(db, t), config.tenantColumn, v) else Fetch(db, t)
  {
    hide BaseName, EqualFold;
    BaseNameIdempotent(t.name);
    assert IsTenantTable(config, BaseName(t.name)) == IsTenantTable(config, t.name);
  }

  // ----- Joins -----

  /** The rows of one table joined to one combination of rows. */
  function ExtendOne(env: Env, qual: string, rows: seq<Row>, on: Option<seq<Piece>>, sense: AtomSense): seq<Env> {
    if rows == [] then []
    else
      var e := env + [Binding(qual, rows[0])];
      (if Holds(on, e, sense) then [e] else []) + ExtendOne(env, qual, rows[1..], on, sense)
  }

  function Extend(envs: seq<Env>, qual: string, rows: seq<Row>, on: Option<seq<Piece>>, sense: AtomSense): seq<Env> {
    if envs == [] then []
    else ExtendOne(envs[0], qual, rows, on, sense) + Extend(envs[1..], qual, rows, on, sense)
  }

  /** Inner and cross joins from left to right; `ons[i]` belongs to `tables[i]`. */
  function Envs(db: Database, tables: seq<TableRef>, ons: seq<Option<seq<Piece>>>, sense: AtomSense): seq<Env>
    requires |ons| == |tables|
  {
    if tables == [] then [[]]
    else
      var n := |tables| - 1;
      Extend(Envs(db, tables[..n], ons[..n], sense), Qualifier(tables[n]), Fetch(db, tables[n]), ons[n], sense)
  }

  function Where(envs: seq<Env>, cond: Option<seq<Piece>>, sense: AtomSense): seq<Env> {
    if envs == [] then []
    else (if Holds(cond, envs[0], sense) then [envs[0]] else []) + Where(envs[1..], cond, sense)
  }

  /** All rows of tenant tables in the combination are the tenant's. */
  predicate TenantEnv(env: Env, config: Config, tables: seq<TableRef>, v: Value) {
    |env| == |tables| &&
    forall i :: 0 <= i < |tables| && IsTenantTable(config, tables[i].name) ==> Owned(env[i].row, config.tenantColumn, v)
  }

  function TenantEnvs(envs: seq<Env>, config: Config, tables: seq<TableRef>, v: Value): seq<Env> {
    if envs == [] then []
    else (if TenantEnv(envs[0], config, tables, v) then [envs[0]] else []) + TenantEnvs(envs[1..], config, tables, v)
  }

  lemma {:induction false} TenantEnvsConcat(a: seq<Env>, b: seq<Env>, config: Config, tables: seq<TableRef>, v: Value)
    ensures TenantEnvs(a + b, config, tables, v) == TenantEnvs(a, config, tables, v) + TenantEnvs(b, config, tables, v)
  {
    if a == [] {
      assert a + b == b;
    } else {
      assert (a + b)[1..] == a[1..] + b;
      TenantEnvsConcat(a[1..], b, config, tables, v);
    }
  }

  lemma TenantEnvLast(env: Env, b: Binding, config: Config, tables: seq<TableRef>, v: Value)
    requires tables != []
    ensures var n := |tables| - 1;
            TenantEnv(env + [b], config, tables, v) <==>
            && TenantEnv(env, config, tables[..n], v)
            && (IsTenantTable(config, tables[n].name) ==> Owned(b.row, config.tenantColumn, v))
  {
    var n := |tables| - 1;
    if TenantEnv(env + [b], config, tables, v) {
      forall i | 0 <= i < n && IsTenantTable(config, tables[..n][i].name)
        ensures Owned(env[i].row, config.tenantColumn, v)
      {
        assert (env + [b])[i] == env[i];
      }
      assert (env + [b])[n] == b;
    }
  }

  function SliceRows(rows: seq<Row>, config: Config, t: TableRef, v: Value): seq<Row> {
    if IsTenantTable(config, t.name) then OwnedRows(rows, config.tenantColumn, v) else rows
  }

  lemma {:induction false} ExtendOneSlice(env: Env, rows: seq<Row>, on: Option<seq<Piece>>, sense: AtomSense,
                                          config: Config, tables: seq<TableRef>, v: Value)
    requires tables != []
    ensures var n := |tables| - 1;
            TenantEnvs(ExtendOne(env, Qualifier(tables[n]), rows, on, sense), config, tables, v) ==
            if TenantEnv(env, config, tables[..n], v)
            then ExtendOne(env, Qualifier(tables[n]), SliceRows(rows, config, tables[n], v), on, sense) else []
  {
    if rows != [] {
      var n := |tables| - 1;
      var qual := Qualifier(tables[n]);
      var b := Binding(qual, rows[0]);
      var first := if Holds(on, env + [b], sense) then [env + [b]] else [];
      TenantEnvLast(env, b, config, tables, v);
      ExtendOneSlice(env, rows[1..], on, sense, config, tables, v);
      TenantEnvsConcat(first, ExtendOne(env, qual, rows[1..], on, sense), config, tables, v);
      TenantEnvsOne(env + [b], config, tables, v);
      SliceRowsStep(rows, config, tables[n], v);
      var slice, rest := SliceRows(rows, config, tables[n], v), SliceRows(rows[1..], config, tables[n], v);
      var keep := !IsTenantTable(config, tables[n].name) || Owned(rows[0], config.tenantColumn, v);
      assert slice == if keep then [rows[0]] + rest else rest;
      assert TenantEnvs(first, config, tables, v) == if TenantEnv(env, config, tables[..n], v)
             && keep then first else [];
      hide Holds, TenantEnv, TenantEnvs, IsTenantTable, SliceRows, Owned;
      if keep {
        ExtendOneCons(env, qual, rows[0], rest, on, sense);
      }
    }
  }

  lemma ExtendOneCons(env: Env, qual: string, row: Row, rows: seq<Row>, on: Option<seq<Piece>>, sense: AtomSense)
    ensures ExtendOne(env, qual, [row] + rows, on, sense) ==
            (if Holds(on, env + [Binding(qual, row)], sense) then [env + [Binding(qual, row)]] else []) +
            ExtendOne(env, qual, rows, on, sense)
  {
    assert ([row] + rows)[1..] == rows;
  }

  lemma SliceRowsStep(rows: seq<Row>, config: Config, t: TableRef, v: Value)
    requires rows != []
    ensures SliceRows(rows, config, t, v) ==
            (if !IsTenantTable(config, t.name) || Owned(rows[0], config.tenantColumn, v) then [rows[0]] else []) +
            SliceRows(rows[1..], config, t, v)
  {
  }

  lemma TenantEnvsOne(env: Env, config: Config, tables: seq<TableRef>, v: Value)
    ensures TenantEnvs([env], config, tables, v) == if TenantEnv(env, config, tables, v) then [env] else []
    ensures TenantEnvs([], config, tables, v) == []
  {
    assert [env][1..] == [];
  }

  lemma {:induction false} ExtendSlice(envs: seq<Env>, rows: seq<Row>, on: Option<seq<Piece>>, sense: AtomSense,
                                       config: Config, tables: seq<TableRef>, v: Value)
    requires tables != []
    ensures var n := |tables| - 1;
            TenantEnvs(Extend(envs, Qualifier(tables[n]), rows, on, sense), config, tables, v) ==
            Extend(TenantEnvs(envs, config, tables[..n], v), Qualifier(tables[n]),
                   SliceRows(rows, config, tables[n], v), on, sense)
  {
    if envs != [] {
      hide Holds, TenantEnv, IsTenantTable, SliceRows, ExtendOne;
      var n := |tables| - 1;
      var qual := Qualifier(tables[n]);
      ExtendOneSlice(envs[0], rows, on, sense, config, tables, v);
      ExtendSlice(envs[1..], rows, on, sense, config, tables, v);
      TenantEnvsConcat(ExtendOne(envs[0], qual, rows, on, sense), Extend(envs[1..], qual, rows, on, sense), config,
                       tables, v);
      var rest := TenantEnvs(envs[1..], config, tables[..n], v);
      assert ([envs[0]] + rest)[1..] == rest;
      assert [] + rest == rest;
    }
  }

  /** Joining the tenant's slices gives the combinations that are the tenant's. */
  lemma {:induction false} SliceEnvs(db: Database, tables: seq<TableRef>, ons: seq<Option<seq<Piece>>>,
                                     sense: AtomSense, config: Config, v: Value)
    requires |ons| == |tables|
    ensures Envs(Slice(db, config, v), tables, ons, sense) ==
            TenantEnvs(Envs(db, tables, ons, sense), config, tables, v)
    decreases |tables|
  {
    if tables == [] {
      TenantEnvsOne([], config, tables, v);
    } else {
      var n := |tables| - 1;
      SliceEnvs(db, tables[..n], ons[..n], sense, config, v);
      ExtendSlice(Envs(db, tables[..n], ons[..n], sense), Fetch(db, tables[n]), ons[n], sense, config, tables, v);
      FetchSlice(db, config, v, tables[n]);
    }
  }

  // ----- Shape of the combinations -----

  ghost predicate EnvFor(env: Env, tables: seq<TableRef>) {
    |env| == |tables| && forall i :: 0 <= i < |tables| ==> env[i].qual == Qualifier(tables[i])
  }

  lemma {:induction false} ExtendOneShape(env: Env, rows: seq<Row>, on: Option<seq<Piece>>, sense: AtomSense,
                                          tables: seq<TableRef>)
    requires tables != [] && EnvFor(env, tables[..|tables| - 1])
    ensures forall e :: e in ExtendOne(env, Qualifier(tables[|tables| - 1]), rows, on, sense) ==> EnvFor(e, tables)
  {
    if rows != [] {
      hide Holds;
      var e := env + [Binding(Qualifier(tables[|tables| - 1]), rows[0])];
      assert EnvFor(e, tables) by {
        assert forall i :: 0 <= i < |env| ==> e[i] == env[i] && tables[..|tables| - 1][i] == tables[i];
      }
      ExtendOneShape(env, rows[1..], on, sense, tables);
    }
  }

  lemma {:induction false} ExtendShape(envs: seq<Env>, rows: seq<Row>, on: Option<seq<Piece>>, sense: AtomSense,
                                       tables: seq<TableRef>)
    requires tables != [] && forall env :: env in envs ==> EnvFor(env, tables[..|tables| - 1])
    ensures forall e :: e in Extend(envs, Qualifier(tables[|tables| - 1]), rows, on, sense) ==> EnvFor(e, tables)
  {
    if envs != [] {
      assert envs[0] in envs && forall env :: env in envs[1..] ==> env in envs;
      hide EnvFor, ExtendOne;
      ExtendOneShape(envs[0], rows, on, sense, tables);
      ExtendShape(envs[1..], rows, on, sense, tables);
    }
  }

  lemma {:induction false} EnvsShape(db: Database, tables: seq<TableRef>, ons: seq<Option<seq<Piece>>>,
                                     sense: AtomSense)
    requires |ons| == |tables|
    ensures forall e :: e in Envs(db, tables, ons, sense) ==> EnvFor(e, tables)
    decreases |tables|
  {
    if tables != [] {
      var n := |tables| - 1;
      EnvsShape(db, tables[..n], ons[..n], sense);
      hide EnvFor, Holds;
      ExtendShape(Envs(db, tables[..n], ons[..n], sense), Fetch(db, tables[n]), ons[n], sense, tables);
    }
  }

  // ----- The tenant equation -----

  /** A name that can be a tenant column: no dot, no delimiter, no placeholder character. */
  ghost predicate GoodColumn(column: string) {
    column != "" && '.' !in column && GoodName(column)
  }

  ghost predicate GoodName(name: string) {
    Plain(name) && forall i :: 0 <= i < |name| ==> !IsSpace(name[i]) && name[i] != '(' && name[i] != ')'
  }

  function TenantAtom(column: string, v: Value): seq<Lexeme> {
    [Word(Lits(column)), Word([Lit('=')]), Word([Bound(v)])]
  }

  lemma LettersOfLits(s: string)
    ensures AllLits(Lits(s)) && Letters(Lits(s)) == s
  {
  }

  lemma LastDot(qual: string, column: string)
    requires '.' !in column
    ensures LastIndex(qual + "." + column, '.') == |qual|
  {
    LastAt(qual, '.', column);
    assert "." == ['.'];
  }

  lemma {:induction false} QualifiedAt(env: Env, i: nat, column: string)
    requires i < |env| && forall k :: 0 <= k < i ==> env[k].qual != env[i].qual
    ensures Qualified(env, env[i].qual, column) == if column in env[i].row then Some(env[i].row[column]) else None
  {
    if i > 0 {
      assert env[1..][i - 1] == env[i];
      forall k | 0 <= k < i - 1 ensures env[1..][k].qual != env[i].qual {
        assert env[1..][k] == env[k + 1];
      }
      QualifiedAt(env[1..], i - 1, column);
    }
  }

  /** The injected equation for table number `i` is true exactly on the tenant's rows of that table. */
  lemma TenantAtomTruth(env: Env, i: nat, column: string, v: Value, sense: AtomSense)
    requires i < |env| && forall k :: 0 <= k < i ==> env[k].qual != env[i].qual
    requires '.' !in column && v != Null
    ensures AtomTruth(env, TenantAtom(env[i].qual + "." + column, v), sense) == True <==> Owned(env[i].row, column, v)
  {
    var name := env[i].qual + "." + column;
    LettersOfLits(name);
    LastDot(env[i].qual, column);
    assert name[..|env[i].qual|] == env[i].qual && name[|env[i].qual| + 1..] == column;
    QualifiedAt(env, i, column);
  }

  lemma BareAtomTruth(b: Binding, column: string, v: Value, sense: AtomSense)
    requires '.' !in column && v != Null
    ensures AtomTruth([b], TenantAtom(column, v), sense) == True <==> Owned(b.row, column, v)
  {
    LettersOfLits(column);
    LastIndexNone(column, '.');
    assert [b][1..] == [];
    assert Unqualified([b][1..], column) == None;
  }
}
