/** A rewritten statement does to the whole database what the original does to the tenant's slice, as long as no part of
    it but the rewritten table references reads tables; and exactly when not. */
module SliceMeaning {
  import opened Text
  import opened Placeholders
  import opened FromClause
  import opened Rewriter
  import opened Bindings
  import opened Conditions
  import opened Relations
  import opened Combinations
  import opened TableReads
  import opened SelectMeaning

  // ----- SELECT -----

  /** What becomes of the selected combinations of rows: projection, grouping, ordering, limits and further arms, as the
      column list and the tail say. */
  type Finish<!R> = (Database, seq<Piece>, seq<Piece>, seq<Env>) -> R

  /** Column lists and tails that name no table do not depend on the database. */
  ghost predicate LocalFinish<R(!new)>(finish: Finish<R>) {
    forall db, other, columns, tail,
      envs {:trigger finish(db, columns, tail, envs), finish(other, columns, tail, envs)} ::
      !ReadsTables(columns) && !ReadsTables(tail) ==>
        finish(db, columns, tail, envs) == finish(other, columns, tail, envs)
  }

  function Columns(style: Style, q: SelectQuery, args: seq<Value>): seq<Piece> {
    Resolve(style, q.columns, args, 0)
  }

  function Tail(style: Style, q: SelectQuery, args: seq<Value>): seq<Piece> {
    PartsOf(style, StatementOf(q), args).tail
  }

  function Condition(style: Style, q: SelectQuery, args: seq<Value>): Option<seq<Piece>> {
    PartsOf(style, StatementOf(q), args).cond
  }

  /** Running a query: join, keep the rows for which the condition is true, and hand them to `finish`. Sub-selects
      in any part read the database the query runs on. */
  function Run<R>(style: Style, q: SelectQuery, args: seq<Value>, db: Database, sense: Sense, finish: Finish<R>): R {
    finish(db, Columns(style, q, args), Tail(style, q, args), Rows(style, q, args, db, On(sense, db)))
  }

  ghost predicate ClosedConditions(style: Style, q: SelectQuery, args: seq<Value>) {
    Closed(Condition(style, q, args)) && forall on :: on in Ons(style, q, args) ==> Closed(on)
  }

  ghost predicate ClosedOutput(style: Style, q: SelectQuery, args: seq<Value>) {
    !ReadsTables(Columns(style, q, args)) && !ReadsTables(Tail(style, q, args))
  }

  /** The query selects the combination. */
  function Chooses(style: Style, q: SelectQuery, args: seq<Value>, sense: AtomSense): Env -> bool {
    SelectedBy(Ons(style, q, args), Condition(style, q, args), sense)
  }

  function All(db: Database, q: SelectQuery): seq<Env> {
    AllCombinations(db, AllTables(q))
  }

  /** The rows of a query are the combinations it selects. */
  lemma RowsPicked(style: Style, q: SelectQuery, args: seq<Value>, db: Database, sense: AtomSense)
    ensures Rows(style, q, args, db, sense) == Pick(All(db, q), Chooses(style, q, args, sense))
  {
    hide PartsOf, Envs, Ons, Where, AllCombinations, SelectedBy;
    RowsArePicked(db, AllTables(q), Ons(style, q, args), Condition(style, q, args), sense);
  }

  /** What the query selects from the slice: tenant's combinations of the whole database. */
  function FromSlice(config: Config, style: Style, q: SelectQuery, v: Value, args: seq<Value>, sense: AtomSense)
    : Env -> bool
  {
    e => TenantEnv(e, config, AllTables(q), v) && Chooses(style, q, args, sense)(e)
  }

  /** What the rewritten query selects: combinations whose rows of the found tenant tables are the tenant's. */
  function Rewritten(config: Config, style: Style, q: SelectQuery, v: Value, args: seq<Value>, sense: AtomSense)
    : Env -> bool
  {
    e => Guarded(e, config, q, v) && Chooses(style, q, args, sense)(e)
  }

  lemma SliceRowsPicked(config: Config, style: Style, q: SelectQuery, v: Value, args: seq<Value>, db: Database,
                        sense: AtomSense)
    ensures Rows(style, q, args, Slice(db, config, v), sense) ==
            Pick(All(db, q), FromSlice(config, style, q, v, args, sense))
  {
    hide Rows, AllCombinations, Chooses, Slice, TenantEnv, AllTables;
    RowsPicked(style, q, args, Slice(db, config, v), sense);
    SliceCombinations(db, AllTables(q), config, v);
    TenantPicked(All(db, q), Chooses(style, q, args, sense), FromSlice(config, style, q, v, args, sense), config,
                 AllTables(q), v);
  }

  lemma RewrittenRowsPicked(config: Config, style: Style, q: SelectQuery, v: Value, args: seq<Value>, db: Database,
                            sense: AtomSense)
    requires Rewritable(config, style, q, args) && v != Null
    ensures Rows(style, Rewrite(config, style, q), RewriteArgs(config, style, q, v, args), db, sense) ==
            Pick(All(db, q), Rewritten(config, style, q, v, args, sense))
  {
    hide *;
    var q', args' := Rewrite(config, style, q), RewriteArgs(config, style, q, v, args);
    RewrittenParts(config, style, q, v, args);
    AllIs(db, q);
    AllIs(db, q');
    CombinationsShape(db, AllTables(q));
    RowsPicked(style, q', args', db, sense);
    forall e | e in All(db, q)
      ensures Chooses(style, q', args', sense)(e) == Rewritten(config, style, q, v, args, sense)(e)
    {
      RewrittenChooses(config, style, q, v, args, sense, e);
    }
    PickSame(All(db, q), Chooses(style, q', args', sense), Rewritten(config, style, q, v, args, sense));
  }

  lemma AllIs(db: Database, q: SelectQuery)
    ensures All(db, q) == AllCombinations(db, AllTables(q))
  {
  }

  lemma ChoosesIs(style: Style, q: SelectQuery, args: seq<Value>, sense: AtomSense, e: Env)
    ensures Chooses(style, q, args, sense)(e) <==>
            Joined(e, Ons(style, q, args), sense) && Holds(PartsOf(style, StatementOf(q), args).cond, e, sense)
  {
    hide Ons, PartsOf, Joined, Holds;
  }

  lemma RewrittenIs(config: Config, style: Style, q: SelectQuery, v: Value, args: seq<Value>, sense: AtomSense, e: Env)
    ensures Rewritten(config, style, q, v, args, sense)(e) <==>
            Guarded(e, config, q, v) && Chooses(style, q, args, sense)(e)
  {
    hide Guarded, Chooses;
  }

  lemma RewrittenChooses(config: Config, style: Style, q: SelectQuery, v: Value, args: seq<Value>, sense: AtomSense,
                         e: Env)
    requires Rewritable(config, style, q, args) && v != Null && EnvFor(e, AllTables(q))
    ensures Chooses(style, Rewrite(config, style, q), RewriteArgs(config, style, q, v, args), sense)(e) ==
            Rewritten(config, style, q, v, args, sense)(e)
  {
    hide *;
    RewrittenParts(config, style, q, v, args);
    RewrittenHolds(config, style, q, v, args, e, sense);
    ChoosesIs(style, q, args, sense, e);
    ChoosesIs(style, Rewrite(config, style, q), RewriteArgs(config, style, q, v, args), sense, e);
    RewrittenIs(config, style, q, v, args, sense, e);
  }

  /** The rewritten query gives `finish` the combinations it selects, with the texts of the original. */
  lemma RewrittenRun<R>(config: Config, style: Style, q: SelectQuery, v: Value, args: seq<Value>, db: Database,
                        sense: Sense, finish: Finish<R>)
    requires Rewritable(config, style, q, args) && v != Null
    ensures Run(style, Rewrite(config, style, q), RewriteArgs(config, style, q, v, args), db, sense, finish) ==
            finish(db, Columns(style, q, args), Tail(style, q, args),
                   Pick(All(db, q), Rewritten(config, style, q, v, args, On(sense, db))))
  {
    RewrittenParts(config, style, q, v, args);
    RewrittenRowsPicked(config, style, q, v, args, db, On(sense, db));
    hide Rows, PartsOf, Resolve, Rewrite, RewriteArgs, Rewritable, ConjoinedPieces, FilterPieces, On, Ons, All,
         AllTables, InnerCondition, Rewritten, Pick;
  }

  lemma SliceRun<R>(config: Config, style: Style, q: SelectQuery, v: Value, args: seq<Value>, db: Database,
                    sense: Sense, finish: Finish<R>)
    ensures var slice := Slice(db, config, v);
            Run(style, q, args, slice, sense, finish) ==
            finish(slice, Columns(style, q, args), Tail(style, q, args),
                   Pick(All(db, q), FromSlice(config, style, q, v, args, On(sense, slice))))
  {
    SliceRowsPicked(config, style, q, v, args, db, On(sense, Slice(db, config, v)));
    hide Rows, On, All, FromSlice, Pick, Slice, Columns, Tail;
  }

  // ----- Which combinations make a difference -----

  /** Some combination with another tenant's row, in a table the extraction does not find, is selected. */
  ghost predicate HiddenRowSelected(config: Config, style: Style, q: SelectQuery, v: Value, args: seq<Value>) {
    exists env, f: AtomSense ::
      && EnvFor(env, AllTables(q)) && Guarded(env, config, q, v) && !TenantEnv(env, config, AllTables(q), v)
      && Chooses(style, q, args, f)(env)
  }

  /** Whether some combination of the tenant's rows is selected depends on the answers of sub-selects: of an ON
      condition on the rows joined so far, or of the WHERE condition on all of them. */
  ghost predicate CombinationVaries(config: Config, style: Style, q: SelectQuery, v: Value, args: seq<Value>) {
    exists env, f: AtomSense, g: AtomSense ::
      && EnvFor(env, AllTables(q)) && TenantEnv(env, config, AllTables(q), v) && Alike(f, g)
      && Chooses(style, q, args, f)(env) && !Chooses(style, q, args, g)(env)
  }

  lemma TenantIsGuarded(env: Env, config: Config, q: SelectQuery, v: Value)
    requires TenantEnv(env, config, AllTables(q), v)
    ensures Guarded(env, config, q, v)
  {
    FoundIn(config, q);
    hide AllTables, FoundTables, IsTenantTable, Owned;
  }

  /** When all tenant tables are found, no row is hidden. */
  lemma NothingHidden(env: Env, config: Config, q: SelectQuery, v: Value)
    requires AllFound(config, q) && Guarded(env, config, q, v)
    ensures TenantEnv(env, config, AllTables(q), v)
  {
    hide AllTables, FoundTables, IsTenantTable, Owned;
  }

  lemma AlikeSymmetric(f: AtomSense, g: AtomSense)
    requires Alike(f, g)
    ensures Alike(g, f)
  {
    hide NamesTables;
  }

  /** Without such combinations, the rewritten query selects from the whole database what the original selects from the
      slice, whichever of the two the sub-selects read. */
  lemma SameSelection(config: Config, style: Style, q: SelectQuery, v: Value, args: seq<Value>, db: Database,
                      f: AtomSense, g: AtomSense)
    requires !HiddenRowSelected(config, style, q, v, args) && !CombinationVaries(config, style, q, v, args)
             && Alike(f, g)
    ensures Pick(All(db, q), Rewritten(config, style, q, v, args, f)) ==
            Pick(All(db, q), FromSlice(config, style, q, v, args, g))
  {
    CombinationsShape(db, AllTables(q));
    AlikeSymmetric(f, g);
    hide AllCombinations, Chooses, Guarded, TenantEnv, EnvFor, AllTables, Alike;
    forall e | e in All(db, q)
      ensures Rewritten(config, style, q, v, args, f)(e) == FromSlice(config, style, q, v, args, g)(e)
    {
      if TenantEnv(e, config, AllTables(q), v) {
        TenantIsGuarded(e, config, q, v);
      }
    }
    PickSame(All(db, q), Rewritten(config, style, q, v, args, f), FromSlice(config, style, q, v, args, g));
  }

  /** Conditions that name no table select a combination or not whatever the tables contain. */
  lemma ClosedDoesNotVary(config: Config, style: Style, q: SelectQuery, v: Value, args: seq<Value>)
    requires ClosedConditions(style, q, args)
    ensures !CombinationVaries(config, style, q, v, args)
  {
    hide Condition, Ons, Holds, Closed, Alike, EnvFor, TenantEnv, AllTables;
    forall env: Env, f: AtomSense, g: AtomSense | Alike(f, g) && Chooses(style, q, args, f)(env)
      ensures Chooses(style, q, args, g)(env)
    {
      var ons, cond := Ons(style, q, args), Condition(style, q, args);
      HoldsSame(cond, env, f, g);
      forall i | 0 <= i < |env| ensures Holds(ons[i], env[..i + 1], g) {
        assert ons[i] in ons && Holds(ons[i], env[..i + 1], f);
        HoldsSame(ons[i], env[..i + 1], f, g);
      }
    }
  }

  lemma FoundHidesNothing(config: Config, style: Style, q: SelectQuery, v: Value, args: seq<Value>)
    requires AllFound(config, q)
    ensures !HiddenRowSelected(config, style, q, v, args)
  {
    hide Chooses, EnvFor, AllFound, Guarded, TenantEnv, AllTables;
    forall env | Guarded(env, config, q, v) ensures TenantEnv(env, config, AllTables(q), v) {
      NothingHidden(env, config, q, v);
    }
  }

  // ----- Meaning preservation -----

  /** Meaning preservation for SELECT: for any number of inner or cross joins, self-joins included, the rewritten query
      on the whole database gives what the original gives on the tenant's slice, when the extraction finds every tenant
      table and no condition, column list or tail names tables. */
  lemma SelectPreservesMeaning<R(!new)>(config: Config, style: Style, q: SelectQuery, v: Value, args: seq<Value>,
                                        db: Database, sense: Sense, finish: Finish<R>)
    requires Rewritable(config, style, q, args) && AllFound(config, q) && v != Null
    requires ClosedConditions(style, q, args) && ClosedOutput(style, q, args)
    requires Local(sense) && LocalFinish(finish)
    ensures InjectSelect(config, style, StatementText(StatementOf(q)), v, args) ==
            Ok((StatementText(StatementOf(Rewrite(config, style, q))), RewriteArgs(config, style, q, v, args)))
    ensures Run(style, Rewrite(config, style, q), RewriteArgs(config, style, q, v, args), db, sense, finish) ==
            Run(style, q, args, Slice(db, config, v), sense, finish)
  {
    SelectRewriteText(config, style, q, v, args);
    FoundHidesNothing(config, style, q, v, args);
    ClosedDoesNotVary(config, style, q, v, args);
    hide Rewritable, AllFound;
    SteadyRun(config, style, q, v, args, db, sense, finish);
  }

  lemma SteadyRun<R(!new)>(config: Config, style: Style, q: SelectQuery, v: Value, args: seq<Value>, db: Database,
                           sense: Sense, finish: Finish<R>)
    requires Rewritable(config, style, q, args) && v != Null && ClosedOutput(style, q, args)
    requires !HiddenRowSelected(config, style, q, v, args) && !CombinationVaries(config, style, q, v, args)
    requires Local(sense) && LocalFinish(finish)
    ensures Run(style, Rewrite(config, style, q), RewriteArgs(config, style, q, v, args), db, sense, finish) ==
            Run(style, q, args, Slice(db, config, v), sense, finish)
  {
    var slice := Slice(db, config, v);
    LocalAlike(sense, db, slice);
    RewrittenRun(config, style, q, v, args, db, sense, finish);
    SliceRun(config, style, q, v, args, db, sense, finish);
    hide Run, Rewrite, RewriteArgs, Rewritable, Local, Slice, On, Columns, Tail, ReadsTables, Alike, All, Pick,
         Rewritten, FromSlice, HiddenRowSelected, CombinationVaries;
    SameSelection(config, style, q, v, args, db, On(sense, db), On(sense, slice));
  }

  /** The rewritten query gives on every database, under every meaning of its atoms and of what follows WHERE, what the
      original gives on the slice. */
  ghost predicate FaithfulSelect(config: Config, style: Style, q: SelectQuery, v: Value, args: seq<Value>) {
    forall db, sense, finish: Finish<seq<Row>> :: Local(sense) && LocalFinish(finish) ==>
      Run(style, Rewrite(config, style, q), RewriteArgs(config, style, q, v, args), db, sense, finish) ==
      Run(style, q, args, Slice(db, config, v), sense, finish)
  }

  // ----- Tables read by the column list or the tail -----

  /** A column list or tail that names tables may give the rows of any table: a further arm of a UNION, say. */
  function ArmOf(name: string): Finish<seq<Row>> {
    (db, columns, tail, envs) =>
      if ReadsTables(columns) || ReadsTables(tail) then Fetch(db, TableRef(name, "")) else []
  }

  /** A row that is no tenant's. */
  function Strange(name: string): Database {
    map[BaseName(name) := [map[]]]
  }

  lemma StrangeSlice(config: Config, name: string, v: Value)
    requires IsTenantTable(config, name)
    ensures Fetch(Strange(name), TableRef(name, "")) != Fetch(Slice(Strange(name), config, v), TableRef(name, ""))
  {
    hide BaseName, IsTenantTable;
    FetchSlice(Strange(name), config, v, TableRef(name, ""));
  }

  /** An arm or sub-select in the tail or the column list reads all tenants' rows: as soon as there is a tenant table,
      some database and meaning show it. */
  lemma ReadingOutputLeaks(config: Config, style: Style, q: SelectQuery, v: Value, args: seq<Value>, name: string)
    requires Rewritable(config, style, q, args) && v != Null
    requires IsTenantTable(config, name) && !ClosedOutput(style, q, args)
    ensures !FaithfulSelect(config, style, q, v, args)
  {
    hide Rewritable, Run, Rewrite, RewriteArgs, Columns, Tail, ReadsTables, Fetch, Slice, Strange, NamesTables,
         IsTenantTable, Rewritten, FromSlice, All, Pick, FaithfulSelect;
    var db, sense: Sense, finish := Strange(name), (db, env, words) => True, ArmOf(name);
    assert Local(sense) && LocalFinish(finish);
    RewrittenRun(config, style, q, v, args, db, sense, finish);
    SliceRun(config, style, q, v, args, db, sense, finish);
    StrangeSlice(config, name, v);
    NotFaithful(config, style, q, v, args, db, sense, finish);
  }

  lemma NotFaithful(config: Config, style: Style, q: SelectQuery, v: Value, args: seq<Value>, db: Database,
                    sense: Sense, finish: Finish<seq<Row>>)
    requires Local(sense) && LocalFinish(finish)
    requires Run(style, Rewrite(config, style, q), RewriteArgs(config, style, q, v, args), db, sense, finish) !=
             Run(style, q, args, Slice(db, config, v), sense, finish)
    ensures !FaithfulSelect(config, style, q, v, args)
  {
    hide Run, Rewrite, RewriteArgs, Slice, Local, LocalFinish;
  }

  // ----- Rows of hidden tables and tables read by conditions -----

  /** Tells one selection from all others. */
  function Recognize(selection: seq<Env>): Finish<seq<Row>> {
    (db, columns, tail, envs) => if envs == selection then [] else [map[]]
  }

  lemma RecognizeLocal(selection: seq<Env>)
    ensures LocalFinish(Recognize(selection))
  {
    hide ReadsTables;
  }

  lemma RecognizeTells(selection: seq<Env>, db: Database, columns: seq<Piece>, tail: seq<Piece>, envs: seq<Env>)
    ensures Recognize(selection)(db, columns, tail, envs) == if envs == selection then [] else [map[]]
  {
  }

  /** Selections that differ can be told apart. */
  lemma DifferentSelections(config: Config, style: Style, q: SelectQuery, v: Value, args: seq<Value>, db: Database,
                            sense: Sense)
    requires Rewritable(config, style, q, args) && v != Null && Local(sense)
    requires Pick(All(db, q), Rewritten(config, style, q, v, args, On(sense, db))) !=
             Pick(All(db, q), FromSlice(config, style, q, v, args, On(sense, Slice(db, config, v))))
    ensures !FaithfulSelect(config, style, q, v, args)
  {
    hide *;
    var slice := Slice(db, config, v);
    var selection := Pick(All(db, q), Rewritten(config, style, q, v, args, On(sense, db)));
    var other := Pick(All(db, q), FromSlice(config, style, q, v, args, On(sense, slice)));
    var finish := Recognize(selection);
    RecognizeLocal(selection);
    RewrittenRun(config, style, q, v, args, db, sense, finish);
    SliceRun(config, style, q, v, args, db, sense, finish);
    RecognizeTells(selection, db, Columns(style, q, args), Tail(style, q, args), selection);
    RecognizeTells(selection, slice, Columns(style, q, args), Tail(style, q, args), other);
    NotFaithful(config, style, q, v, args, db, sense, finish);
  }

  /** The combination is selected by the rewritten query and not by the original on the slice. */
  lemma TellingCombination(config: Config, style: Style, q: SelectQuery, v: Value, args: seq<Value>, db: Database,
                           f: AtomSense, g: AtomSense, env: Env)
    requires env in All(db, q) && Guarded(env, config, q, v) && Chooses(style, q, args, f)(env)
    requires !(TenantEnv(env, config, AllTables(q), v) && Chooses(style, q, args, g)(env))
    ensures Pick(All(db, q), Rewritten(config, style, q, v, args, f)) !=
            Pick(All(db, q), FromSlice(config, style, q, v, args, g))
  {
    hide All, Chooses, Guarded, TenantEnv, Pick, AllTables;
    PickMembers(All(db, q), Rewritten(config, style, q, v, args, f));
    PickMembers(All(db, q), FromSlice(config, style, q, v, args, g));
  }

  function SenseOf(f: AtomSense): Sense {
    (db, env, words) => f(env, words)
  }

  lemma SenseOfLocal(f: AtomSense)
    ensures Local(SenseOf(f))
  {
    hide NamesTables;
  }

  lemma ChoosesPointwise(style: Style, q: SelectQuery, args: seq<Value>, f: AtomSense, g: AtomSense, env: Env)
    requires forall e, words {:trigger f(e, words)} {:trigger g(e, words)} :: f(e, words) == g(e, words)
    ensures Chooses(style, q, args, f)(env) <==> Chooses(style, q, args, g)(env)
  {
    hide Condition, Ons, Holds;
    var ons, cond := Ons(style, q, args), Condition(style, q, args);
    HoldsPointwise(cond, env, f, g);
    forall i | 0 <= i < |env| && |env| == |ons|
      ensures Holds(ons[i], env[..i + 1], f) <==> Holds(ons[i], env[..i + 1], g)
    {
      HoldsPointwise(ons[i], env[..i + 1], f, g);
    }
  }

  /** Another tenant's row of a hidden table comes through: in the database with no more rows than the combination
      has. */
  lemma HiddenRowLeaks(config: Config, style: Style, q: SelectQuery, v: Value, args: seq<Value>)
    requires Rewritable(config, style, q, args) && v != Null && HiddenRowSelected(config, style, q, v, args)
    ensures !FaithfulSelect(config, style, q, v, args)
  {
    hide Guarded, TenantEnv, Chooses, AllTables, EnvFor;
    var env, f: AtomSense :|
      && EnvFor(env, AllTables(q)) && Guarded(env, config, q, v) && !TenantEnv(env, config, AllTables(q), v)
      && Chooses(style, q, args, f)(env);
    assert |env| == |AllTables(q)| by { EnvLength(env, AllTables(q)); }
    hide *;
    var db, sense := DatabaseOf(env, AllTables(q)), SenseOf(f);
    SenseOfLocal(f);
    SenseOfIs(f, db);
    InDatabaseOf(env, AllTables(q));
    AllIs(db, q);
    ChoosesPointwise(style, q, args, On(sense, db), f, env);
    TellingCombination(config, style, q, v, args, db, On(sense, db), On(sense, Slice(db, config, v)), env);
    DifferentSelections(config, style, q, v, args, db, sense);
  }

  lemma EnvLength(env: Env, tables: seq<TableRef>)
    requires EnvFor(env, tables)
    ensures |env| == |tables|
  {
  }

  lemma SenseOfIs(f: AtomSense, db: Database)
    ensures forall e, words {:trigger On(SenseOf(f), db)(e, words)} {:trigger f(e, words)} ::
              On(SenseOf(f), db)(e, words) == f(e, words)
  {
  }

  /** The database with one more row in a table, which is no tenant's. */
  function WithStranger(db: Database, name: string): Database {
    db[BaseName(name) := Fetch(db, TableRef(name, "")) + [map[]]]
  }

  lemma {:induction false} StrangerNotOwned(rows: seq<Row>, column: string, v: Value)
    ensures OwnedRows(rows + [map[]], column, v) == OwnedRows(rows, column, v)
    ensures |OwnedRows(rows, column, v)| <= |rows|
  {
    if rows == [] {
      var none: seq<Row>, strange: seq<Row> := [], [map[]];
      assert none + strange == strange && strange[1..] == none;
      assert OwnedRows(strange, column, v) == [] + OwnedRows(none, column, v) == [];
    } else {
      hide Owned;
      assert (rows + [map[]])[1..] == rows[1..] + [map[]];
      StrangerNotOwned(rows[1..], column, v);
    }
  }

  lemma FetchStranger(db: Database, name: string, t: TableRef)
    ensures Fetch(WithStranger(db, name), t) ==
            if BaseName(t.name) == BaseName(name) then Fetch(db, t) + [map[]] else Fetch(db, t)
  {
    hide BaseName;
  }

  lemma SameBaseName(config: Config, a: string, b: string)
    requires BaseName(a) == BaseName(b)
    ensures IsTenantTable(config, a) <==> IsTenantTable(config, b)
  {
    hide BaseName, EqualFold;
  }

  /** The slice does not change, but the database is no slice. */
  lemma StrangerOutside(config: Config, db: Database, name: string, v: Value)
    requires IsTenantTable(config, name)
    ensures forall t :: Fetch(Slice(WithStranger(db, name), config, v), t) == Fetch(Slice(db, config, v), t)
    ensures Slice(WithStranger(db, name), config, v) != WithStranger(db, name)
  {
    var db', me := WithStranger(db, name), TableRef(name, "");
    hide BaseName, IsTenantTable, Fetch, Slice, WithStranger, OwnedRows;
    forall t ensures Fetch(Slice(db', config, v), t) == Fetch(Slice(db, config, v), t) {
      FetchSlice(db, config, v, t);
      FetchSlice(db', config, v, t);
      FetchStranger(db, name, t);
      StrangerNotOwned(Fetch(db, t), config.tenantColumn, v);
      if BaseName(t.name) == BaseName(name) {
        SameBaseName(config, t.name, name);
      }
    }
    FetchStranger(db, name, me);
    FetchSlice(db', config, v, me);
    StrangerNotOwned(Fetch(db, me), config.tenantColumn, v);
    assert |Fetch(db', me)| == |Fetch(db, me)| + 1;
  }

  lemma TellingIs(db: Database, other: Database, f: AtomSense, g: AtomSense)
    requires other != db
    ensures forall e, words {:trigger On(Telling(db, f, g), db)(e, words)} {:trigger f(e, words)} ::
              On(Telling(db, f, g), db)(e, words) == f(e, words)
    ensures forall e, words {:trigger On(Telling(db, f, g), other)(e, words)} {:trigger g(e, words)} ::
              On(Telling(db, f, g), other)(e, words) == g(e, words)
  {
  }

  lemma StrangerKeeps(db: Database, name: string, t: TableRef)
    ensures forall row :: row in Fetch(db, t) ==> row in Fetch(WithStranger(db, name), t)
  {
    hide Fetch, WithStranger, BaseName;
    FetchStranger(db, name, t);
  }

  lemma InLargerDatabase(env: Env, tables: seq<TableRef>, name: string)
    requires EnvFor(env, tables)
    ensures env in AllCombinations(WithStranger(DatabaseOf(env, tables), name), tables)
  {
    hide Fetch, WithStranger, DatabaseOf, Qualifier, AllCombinations;
    var db := DatabaseOf(env, tables);
    InDatabaseOf(env, tables);
    forall i | 0 <= i < |tables| ensures env[i].row in Fetch(WithStranger(db, name), tables[i]) {
      StrangerKeeps(db, name, tables[i]);
    }
    InCombinations(WithStranger(db, name), tables, env);
  }

  /** A combination of the tenant's rows that is selected or not as the sub-selects answer: in the database with its
      rows and one more, which makes it differ from its slice. */
  lemma VaryingLeaks(config: Config, style: Style, q: SelectQuery, v: Value, args: seq<Value>, name: string)
    requires Rewritable(config, style, q, args) && v != Null && IsTenantTable(config, name)
    requires CombinationVaries(config, style, q, v, args)
    ensures !FaithfulSelect(config, style, q, v, args)
  {
    hide TenantEnv, Chooses, AllTables, EnvFor, Alike;
    var env, f: AtomSense, g: AtomSense :|
      && EnvFor(env, AllTables(q)) && TenantEnv(env, config, AllTables(q), v) && Alike(f, g)
      && Chooses(style, q, args, f)(env) && !Chooses(style, q, args, g)(env);
    assert |env| == |AllTables(q)| by { EnvLength(env, AllTables(q)); }
    hide *;
    var db0 := DatabaseOf(env, AllTables(q));
    var db := WithStranger(db0, name);
    var slice, sense := Slice(db, config, v), Telling(db, f, g);
    StrangerOutside(config, db0, name, v);
    TellingLocal(db, slice, f, g, None, []);
    TellingIs(db, slice, f, g);
    InLargerDatabase(env, AllTables(q), name);
    AllIs(db, q);
    TenantIsGuarded(env, config, q, v);
    ChoosesPointwise(style, q, args, On(sense, db), f, env);
    ChoosesPointwise(style, q, args, On(sense, slice), g, env);
    TellingCombination(config, style, q, v, args, db, On(sense, db), On(sense, slice), env);
    DifferentSelections(config, style, q, v, args, db, sense);
  }

  lemma SteadyIsFaithful(config: Config, style: Style, q: SelectQuery, v: Value, args: seq<Value>)
    requires Rewritable(config, style, q, args) && v != Null && ClosedOutput(style, q, args)
    requires !HiddenRowSelected(config, style, q, v, args) && !CombinationVaries(config, style, q, v, args)
    ensures FaithfulSelect(config, style, q, v, args)
  {
    hide Rewritable, Run, Rewrite, RewriteArgs, Slice, Local, LocalFinish, ClosedOutput, HiddenRowSelected,
         CombinationVaries;
    forall db, sense, finish: Finish<seq<Row>> | Local(sense) && LocalFinish(finish)
      ensures Run(style, Rewrite(config, style, q), RewriteArgs(config, style, q, v, args), db, sense, finish) ==
              Run(style, q, args, Slice(db, config, v), sense, finish)
    {
      SteadyRun(config, style, q, v, args, db, sense, finish);
    }
  }

  // ----- Exactly when -----

  /** For any joins and conditions, whether or not all tenant tables are found: the rewriting is faithful if and only if
      column list and tail name no table, no combination with another tenant's row of a hidden table can be selected,
      and no combination of the tenant's rows is selected or not as sub-selects answer. */
  lemma SelectExact(config: Config, style: Style, q: SelectQuery, v: Value, args: seq<Value>, name: string)
    requires Rewritable(config, style, q, args) && v != Null && IsTenantTable(config, name)
    ensures FaithfulSelect(config, style, q, v, args) <==>
            && ClosedOutput(style, q, args)
            && !HiddenRowSelected(config, style, q, v, args)
            && !CombinationVaries(config, style, q, v, args)
  {
    hide *;
    if !ClosedOutput(style, q, args) {
      ReadingOutputLeaks(config, style, q, v, args, name);
    } else if HiddenRowSelected(config, style, q, v, args) {
      HiddenRowLeaks(config, style, q, v, args);
    } else if CombinationVaries(config, style, q, v, args) {
      VaryingLeaks(config, style, q, v, args, name);
    } else {
      SteadyIsFaithful(config, style, q, v, args);
    }
  }

  /** With conditions that name no table and all tenant tables found: if and only if column list and tail name none
      either. */
  lemma OutputExact(config: Config, style: Style, q: SelectQuery, v: Value, args: seq<Value>, name: string)
    requires Rewritable(config, style, q, args) && AllFound(config, q) && v != Null
    requires ClosedConditions(style, q, args) && IsTenantTable(config, name)
    ensures FaithfulSelect(config, style, q, v, args) <==> ClosedOutput(style, q, args)
  {
    hide *;
    FoundHidesNothing(config, style, q, v, args);
    ClosedDoesNotVary(config, style, q, v, args);
    SelectExact(config, style, q, v, args, name);
  }

  /** For a query on one tenant table, whatever its condition: if and only if column list and tail name no table and no
      answer of the condition's sub-selects can change whether a row of the tenant is kept. */
  lemma OneTableExact(config: Config, style: Style, q: SelectQuery, v: Value, args: seq<Value>)
    requires Rewritable(config, style, q, args) && v != Null
    requires q.from.joins == [] && IsTenantTable(config, q.from.main.name)
    ensures FaithfulSelect(config, style, q, v, args) <==>
            ClosedOutput(style, q, args) &&
            !TablesMatter(Condition(style, q, args), Qualifier(q.from.main), config.tenantColumn, v)
  {
    hide *;
    NoJoins(q);
    OnFirstFindsAll(config, q);
    FoundHidesNothing(config, style, q, v, args);
    OneTableVaries(config, style, q, v, args);
    SelectExact(config, style, q, v, args, q.from.main.name);
  }

  lemma NoJoins(q: SelectQuery)
    requires q.from.joins == []
    ensures OnFirst(q.from.joins)
  {
  }

  /** A combination of one row. */
  lemma OneRowChosen(style: Style, q: SelectQuery, args: seq<Value>, f: AtomSense, row: Row)
    requires q.from.joins == []
    ensures Chooses(style, q, args, f)([Binding(Qualifier(q.from.main), row)]) <==>
            Holds(Condition(style, q, args), [Binding(Qualifier(q.from.main), row)], f)
  {
    hide Condition, Count;
    var ons := Ons(style, q, args);
    assert |ons| == 1 && ons[0] == None;
    hide Holds;
    assert Holds(None, [Binding(Qualifier(q.from.main), row)],
                 f) by { NoneHolds([Binding(Qualifier(q.from.main), row)], f); }
    var env: Env := [Binding(Qualifier(q.from.main), row)];
    assert env[..1] == env;
  }

  lemma NoneHolds(env: Env, f: AtomSense)
    ensures Holds(None, env, f)
  {
  }

  lemma OneTableVaries(config: Config, style: Style, q: SelectQuery, v: Value, args: seq<Value>)
    requires q.from.joins == [] && IsTenantTable(config, q.from.main.name)
    ensures CombinationVaries(config, style, q, v, args) <==>
            TablesMatter(Condition(style, q, args), Qualifier(q.from.main), config.tenantColumn, v)
  {
    var t, cond, column := q.from.main, Condition(style, q, args), config.tenantColumn;
    var qual := Qualifier(t);
    hide Condition, Holds, Alike, Chooses, IsTenantTable, Owned;
    assert AllTables(q) == [t];
    if CombinationVaries(config, style, q, v, args) {
      var env: Env, f: AtomSense, g: AtomSense :|
        && EnvFor(env, AllTables(q)) && TenantEnv(env, config, AllTables(q), v) && Alike(f, g)
        && Chooses(style, q, args, f)(env) && !Chooses(style, q, args, g)(env);
      assert env == [Binding(qual, env[0].row)];
      OneRowChosen(style, q, args, f, env[0].row);
      OneRowChosen(style, q, args, g, env[0].row);
      assert Owned(env[0].row, column, v);
    }
    if TablesMatter(cond, qual, column, v) {
      var row, f: AtomSense, g: AtomSense :|
        && Owned(row, column, v) && Alike(f, g) && Holds(cond, [Binding(qual, row)], f)
           && !Holds(cond, [Binding(qual, row)], g);
      var env: Env := [Binding(qual, row)];
      OneRowChosen(style, q, args, f, row);
      OneRowChosen(style, q, args, g, row);
      assert EnvFor(env, AllTables(q)) && TenantEnv(env, config, AllTables(q), v);
    }
  }

  // ----- A hidden table -----

  /** No NOT, and no equation with an argument: true when all its atoms are. */
  predicate Positive(c: Cond) {
    match c
    case Atom(words) => !IsEquation(words)
    case And(l, r) => Positive(l) && Positive(r)
    case Or(l, r) => Positive(l) && Positive(r)
    case Not(_) => false
  }

  predicate PositiveCondition(cond: Option<seq<Piece>>) {
    cond.Some? ==> Parse(cond.value).Some? && Positive(Parse(cond.value).value)
  }

  lemma {:induction false} PositiveTrue(c: Cond, atom: seq<Lexeme> -> Truth)
    requires Positive(c) && forall words :: !IsEquation(words) ==> atom(words) == True
    ensures Eval(c, atom) == True
  {
    match c {
      case Atom(_) =>
      case And(l, r) => PositiveTrue(l, atom); PositiveTrue(r, atom);
      case Or(l, r) => PositiveTrue(l, atom); PositiveTrue(r, atom);
      case Not(_) =>
    }
  }

  lemma PositiveHolds(cond: Option<seq<Piece>>, env: Env)
    requires PositiveCondition(cond)
    ensures Holds(cond, env, Always())
  {
    hide IsEquation;
    if cond.Some? {
      PositiveTrue(Parse(cond.value).value, words => AtomTruth(env, words, Always()));
    }
  }

  ghost predicate PositiveConditions(style: Style, q: SelectQuery, args: seq<Value>) {
    PositiveCondition(Condition(style, q, args)) && forall on :: on in Ons(style, q, args) ==> PositiveCondition(on)
  }

  /** The tenant's rows from the tables that are found, another's from the rest. */
  function HalfTenant(config: Config, q: SelectQuery, v: Value): (r: Env)
    ensures |r| == |AllTables(q)|
  {
    seq(|AllTables(q)|, i requires 0 <= i < |AllTables(q)| =>
      Binding(Qualifier(AllTables(q)[i]),
              if AllTables(q)[i] in FoundTables(config, q) then map[config.tenantColumn := v] else map[]))
  }

  /** A tenant table that the extraction does not find shows other tenants' rows: the rewritten query can select one. */
  lemma HiddenTableLeaks(config: Config, style: Style, q: SelectQuery, v: Value, args: seq<Value>)
    requires Rewritable(config, style, q, args) && v != Null
    requires PositiveConditions(style, q, args) && !AllFound(config, q)
    ensures HiddenRowSelected(config, style, q, v, args) && !FaithfulSelect(config, style, q, v, args)
  {
    HalfTenantShape(config, q, v);
    hide AllTables, FoundTables, TenantEnv, Guarded, EnvFor, Rewritable, FaithfulSelect, PositiveCondition, Condition,
         Ons, Holds;
    var env := HalfTenant(config, q, v);
    PositiveHolds(Condition(style, q, args), env);
    forall i | 0 <= i < |env| ensures Holds(Ons(style, q, args)[i], env[..i + 1], Always()) {
      PositiveHolds(Ons(style, q, args)[i], env[..i + 1]);
    }
    assert Chooses(style, q, args, Always())(env);
    hide Chooses;
    assert HiddenRowSelected(config, style, q, v, args);
    hide HiddenRowSelected;
    HiddenRowLeaks(config, style, q, v, args);
  }

  lemma HalfTenantShape(config: Config, q: SelectQuery, v: Value)
    requires !AllFound(config, q)
    ensures var env := HalfTenant(config, q, v);
            EnvFor(env, AllTables(q)) && Guarded(env, config, q, v) && !TenantEnv(env, config, AllTables(q), v)
  {
    hide AllTables, FoundTables, IsTenantTable, Qualifier;
    var env := HalfTenant(config, q, v);
    var t :| t in AllTables(q) && IsTenantTable(config, t.name) && t !in FoundTables(config, q);
    var i :| 0 <= i < |AllTables(q)| && AllTables(q)[i] == t;
    assert env[i].row == map[];
  }

  /** For positive conditions that name no table: the rewriting is faithful if and only if column list and tail name
      none and the extraction finds every tenant table. */
  lemma AllFoundExact(config: Config, style: Style, q: SelectQuery, v: Value, args: seq<Value>, name: string)
    requires Rewritable(config, style, q, args) && v != Null && IsTenantTable(config, name)
    requires PositiveConditions(style, q, args) && ClosedConditions(style, q, args)
    ensures FaithfulSelect(config, style, q, v, args) <==> ClosedOutput(style, q, args) && AllFound(config, q)
  {
    hide *;
    if AllFound(config, q) {
      OutputExact(config, style, q, v, args, name);
    } else {
      HiddenTableLeaks(config, style, q, v, args);
    }
  }

  // ----- Databases of one row more -----

  lemma TwoRowsOwned(row: Row, column: string, v: Value)
    requires Owned(row, column, v)
    ensures OwnedRows([row, map[]], column, v) == [row]
  {
    var strange, none: seq<Row> := [map[]], [];
    assert [row, map[]][1..] == strange && strange[1..] == none;
    assert OwnedRows(strange, column, v) == [] + OwnedRows(none, column, v) == [];
    assert OwnedRows([row, map[]], column, v) == [row] + OwnedRows(strange, column, v);
  }

  function TwoRows(name: string, row: Row): Database {
    map[BaseName(name) := [row, map[]]]
  }

  lemma TwoRowsSlice(config: Config, t: TableRef, row: Row, v: Value)
    requires IsTenantTable(config, t.name) && Owned(row, config.tenantColumn, v)
    ensures Fetch(TwoRows(t.name, row), t) == [row, map[]]
    ensures Slice(TwoRows(t.name, row), config, v) != TwoRows(t.name, row)
  {
    hide BaseName, IsTenantTable;
    FetchSlice(TwoRows(t.name, row), config, v, t);
    TwoRowsOwned(row, config.tenantColumn, v);
  }
}
