/** UPDATE and DELETE on a database: the rewritten statement changes the tenant's slice as the original would, and
    nothing else, as long as no part of it reads tables; and exactly when not. */
module MutationSlice {
  import opened Text
  import opened Placeholders
  import opened FromClause
  import opened Rewriter
  import opened Bindings
  import opened Conditions
  import opened Relations
  import opened TableReads
  import opened SelectMeaning
  import opened SliceMeaning
  import opened MutationMeaning

  datatype Mutation =
    | UpdateOf(target: TableRef, form: RefForm, set_: string, cond: Option<string>, tail: string)
    | DeleteOf(target: TableRef, form: RefForm, cond: Option<string>, tail: string)

  function StatementFor(m: Mutation): Statement {
    match m
    case UpdateOf(target, form, set_, cond, tail) =>
      Statement("UPDATE " + RefText(target, form) + " SET " + set_, cond, tail)
    case DeleteOf(target, form, cond, tail) => Statement("DELETE FROM " + RefText(target, form), cond, tail)
  }

  /** What SET makes of a row, as the head of the statement says. */
  type Assign = (Database, seq<Piece>, Row) -> Row

  ghost predicate LocalAssign(assign: Assign) {
    forall db, other, head, row {:trigger assign(db, head, row), assign(other, head, row)} ::
      !ReadsTables(head) ==> assign(db, head, row) == assign(other, head, row)
  }

  /** What RETURNING gives for the rows the statement applies to. */
  type Returning<!R> = (Database, seq<Piece>, seq<Row>) -> R

  ghost predicate LocalReturning<R(!new)>(returning: Returning<R>) {
    forall db, other, tail, rows {:trigger returning(db, tail, rows), returning(other, tail, rows)} ::
      !ReadsTables(tail) ==> returning(db, tail, rows) == returning(other, tail, rows)
  }

  function Store(db: Database, t: TableRef, rows: seq<Row>): Database {
    if BaseName(t.name) in db then db[BaseName(t.name) := rows] else db
  }

  /** Running a statement: the database it leaves and what RETURNING gives. Sub-selects in any part read the database
      as it is before. */
  function Execute<R>(style: Style, m: Mutation, args: seq<Value>, db: Database, sense: Sense, assign: Assign,
                      returning: Returning<R>): (Database, R) {
    var p := PartsOf(style, StatementFor(m), args);
    var rows, qual, atoms := Fetch(db, m.target), Qualifier(m.target), On(sense, db);
    (Store(db, m.target,
           if m.DeleteOf? then Delete(rows, p.cond, qual, atoms)
           else Update(rows, p.cond, qual, atoms, row => assign(db, p.head, row))),
     returning(db, p.tail, TouchedRows(rows, p.cond, qual, atoms)))
  }

  function WithEquation(config: Config, style: Style, m: Mutation): Mutation {
    m.(cond := Some(Conjoined(TenantEquation(config, style, StatementFor(m)), m.cond)))
  }

  function ArgsFor(config: Config, style: Style, m: Mutation, v: Value, args: seq<Value>): Outcome<seq<Value>> {
    if m.DeleteOf? then Ok(if style == Question then [v] + args else args + [v])
    else UpdateArgs(style, StatementText(StatementFor(m)), [v], args)
  }

  function Inject(config: Config, style: Style, m: Mutation, v: Value, args: seq<Value>): Outcome<Rewritten> {
    var text := StatementText(StatementFor(m));
    if m.DeleteOf? then InjectDelete(config, style, text, v, args) else InjectUpdate(config, style, text, v, args)
  }

  lemma WithEquationStatement(config: Config, style: Style, m: Mutation)
    ensures StatementFor(WithEquation(config, style, m)) ==
            WithFilter(StatementFor(m), TenantEquation(config, style, StatementFor(m)))
    ensures WithEquation(config, style, m).target == m.target && WithEquation(config, style, m).DeleteOf? == m.DeleteOf?
  {
    hide TenantEquation, RefText, Conjoined;
  }

  /** What the theorems ask of a statement: one tenant table as its target, written with or without alias, and, under
      `?`, the tenant argument in its place. */
  ghost predicate ReadyFor(config: Config, style: Style, m: Mutation, args: seq<Value>) {
    && MutationReady(config, style, StatementFor(m), args) && IsTenantTable(config, m.target.name)
    && GoodRef(m.target, m.form) && !m.form.Verbatim?
    && (style == Question && m.DeleteOf? ==> Count(StatementFor(m).head, '?') == 0)
    && (style == Question && m.UpdateOf? && m.cond.None? ==> Count(m.tail, '?') == 0)
  }

  lemma ArgsAreExtended(config: Config, style: Style, m: Mutation, v: Value, args: seq<Value>)
    requires ReadyFor(config, style, m, args)
    ensures ArgsFor(config, style, m, v, args).Ok?
    ensures ArgsExtended(style, args, ArgsFor(config, style, m, v, args).value, [v], Count(StatementFor(m).head, '?'))
  {
    hide Count, StatementText, MutationReady, UpdateArgs, IsTenantTable, RefText;
    if m.DeleteOf? {
      assert args[..0] == [] && args[0..] == args;
    } else {
      UpdateArgsAre(config, style, StatementFor(m), v, args);
    }
  }

  /** The rewriter's output is the statement with the tenant equation in its condition. */
  lemma InjectText(config: Config, style: Style, m: Mutation, v: Value, args: seq<Value>)
    requires ReadyFor(config, style, m, args)
    ensures ArgsFor(config, style, m, v, args).Ok?
    ensures Inject(config, style, m, v, args) ==
            Ok((StatementText(StatementFor(WithEquation(config, style, m))), ArgsFor(config, style, m, v, args).value))
  {
    hide Count, StatementText, IsTenantTable, UpdateArgs, TenantEquation, WithEquation, MutationText, StatementFor,
         MutationReady;
    ArgsAreExtended(config, style, m, v, args);
    ReadyIsGood(config, style, StatementFor(m), args);
    MutationTextIs(config, style, StatementFor(m));
    WithEquationStatement(config, style, m);
  }

  /** The parts of the original statement, with its arguments in place. */
  function PartsFor(style: Style, m: Mutation, args: seq<Value>): Parts {
    PartsOf(style, StatementFor(m), args)
  }

  lemma FetchStored(db: Database, t: TableRef, rows: seq<Row>)
    requires BaseName(t.name) !in db ==> rows == []
    ensures Fetch(Store(db, t, rows), t) == rows
    ensures Store(db, t, rows) == Store(db, t, Fetch(Store(db, t, rows), t))
  {
    hide BaseName;
  }

  function Own(config: Config, m: Mutation, v: Value, db: Database): seq<Row> {
    OwnedRows(Fetch(db, m.target), config.tenantColumn, v)
  }

  /** The tenant's rows as the original statement leaves them, its atoms read as `f` does. */
  function Mutated(style: Style, m: Mutation, args: seq<Value>, rows: seq<Row>, f: AtomSense,
                   assign: Row -> Row): seq<Row> {
    var p, qual := PartsFor(style, m, args), Qualifier(m.target);
    if m.DeleteOf? then Delete(rows, p.cond, qual, f) else Update(rows, p.cond, qual, f, assign)
  }

  function Assigner(style: Style, m: Mutation, args: seq<Value>, db: Database, assign: Assign): Row -> Row {
    row => assign(db, PartsFor(style, m, args).head, row)
  }

  lemma ExecuteIs<R>(style: Style, m: Mutation, args: seq<Value>, db: Database, sense: Sense, assign: Assign,
                     returning: Returning<R>)
    ensures var p, rows := PartsFor(style, m, args), Fetch(db, m.target);
            var r := Execute(style, m, args, db, sense, assign, returning);
            && r.1 == returning(db, p.tail, TouchedRows(rows, p.cond, Qualifier(m.target), On(sense, db)))
            && Fetch(r.0, m.target) ==
               Mutated(style, m, args, rows, On(sense, db), Assigner(style, m, args, db, assign))
            && r.0 == Store(db, m.target, Fetch(r.0, m.target))
  {
    hide PartsOf, TouchedRows, Qualifier, On, Touched, BaseName, Store;
    var rows := Fetch(db, m.target);
    var mutated := Mutated(style, m, args, rows, On(sense, db), Assigner(style, m, args, db, assign));
    FetchStored(db, m.target, mutated);
    assert Execute(style, m, args, db, sense, assign, returning).0 == Store(db, m.target, mutated);
  }

  /** What the tenant's rows of `rows` become, the others staying as they are. */
  ghost predicate Replaces(rows: seq<Row>, slice: seq<Row>, after: seq<Row>, column: string, v: Value, deleting: bool) {
    if deleting then OtherRows(after, column, v) == OtherRows(rows, column, v) && OwnedRows(after, column, v) == slice
    else |slice| == |OwnedRows(rows, column, v)| && after == Weave(rows, slice, column, v)
  }

  /** The rewritten statement on `db` changes only its table, and there replaces the tenant's rows by what the original
      makes of them; RETURNING sees what it sees on those rows. All this with sub-selects reading `db`. */
  lemma RewrittenExecution<R>(config: Config, style: Style, m: Mutation, v: Value, args: seq<Value>, db: Database,
                              sense: Sense, assign: Assign, returning: Returning<R>)
    requires ReadyFor(config, style, m, args) && v != Null && ArgsFor(config, style, m, v, args).Ok?
    ensures var p, f := PartsFor(style, m, args), On(sense, db);
            var r := Execute(style, WithEquation(config, style, m), ArgsFor(config, style, m, v, args).value,
                             db, sense, assign, returning);
            && r.1 == returning(db, p.tail, TouchedRows(Own(config, m, v, db), p.cond, Qualifier(m.target), f))
            && r.0 == Store(db, m.target, Fetch(r.0, m.target))
            && Replaces(Fetch(db, m.target),
                        Mutated(style, m, args, Own(config, m, v, db), f, Assigner(style, m, args, db, assign)),
                        Fetch(r.0, m.target), config.tenantColumn, v, m.DeleteOf?)
  {
    hide *;
    var m', args' := WithEquation(config, style, m), ArgsFor(config, style, m, v, args).value;
    ExecuteIs(style, m', args', db, sense, assign, returning);
    WithEquationStatement(config, style, m);
    RewrittenOnRows(config, style, m, v, args, Fetch(db, m.target), On(sense, db),
                    Assigner(style, m, args, db, assign));
    AssignerSame(config, style, m, v, args, db, assign);
    OwnUnfold(config, m, v, db);
  }

  lemma OwnUnfold(config: Config, m: Mutation, v: Value, db: Database)
    ensures Own(config, m, v, db) == OwnedRows(Fetch(db, m.target), config.tenantColumn, v)
  {
  }

  lemma AssignerSame(config: Config, style: Style, m: Mutation, v: Value, args: seq<Value>, db: Database,
                     assign: Assign)
    requires ArgsFor(config, style, m, v, args).Ok?
    requires PartsFor(style, WithEquation(config, style, m), ArgsFor(config, style, m, v, args).value).head ==
             PartsFor(style, m, args).head
    ensures Assigner(style, WithEquation(config, style, m), ArgsFor(config, style, m, v, args).value, db, assign) ==
            Assigner(style, m, args, db, assign)
  {
  }

  /** The same on rows, for one reading of the atoms. */
  lemma RewrittenOnRows(config: Config, style: Style, m: Mutation, v: Value, args: seq<Value>, rows: seq<Row>,
                        f: AtomSense, assign: Row -> Row)
    requires ReadyFor(config, style, m, args) && v != Null && ArgsFor(config, style, m, v, args).Ok?
    ensures var m', args' := WithEquation(config, style, m), ArgsFor(config, style, m, v, args).value;
            var own, qual := OwnedRows(rows, config.tenantColumn, v), Qualifier(m.target);
            var p, p' := PartsFor(style, m, args), PartsFor(style, m', args');
            && p'.head == p.head && p'.tail == p.tail
            && TouchedRows(rows, p'.cond, qual, f) == TouchedRows(own, p.cond, qual, f)
            && Replaces(rows, Mutated(style, m, args, own, f, assign), Mutated(style, m', args', rows, f, assign),
                        config.tenantColumn, v, m.DeleteOf?)
  {
    WithEquationStatement(config, style, m);
    hide StatementFor, StatementText, MutationReady, IsTenantTable, TenantEquation, WithEquation, PartsOf, TouchedRows,
         Qualifier, Delete, Update, Weave, OtherRows, OwnedRows, Count, UpdateArgs, WithFilter, InjectDelete,
         InjectUpdate;
    if m.DeleteOf? {
      DeleteOnRows(config, style, StatementFor(m), v, args, rows, Qualifier(m.target), f);
    } else {
      ReadyUpdate(config, style, m, args);
      UpdateOnRows(config, style, StatementFor(m), v, args, rows, Qualifier(m.target), f, head => assign);
    }
  }

  lemma ReadyUpdate(config: Config, style: Style, m: Mutation, args: seq<Value>)
    requires ReadyFor(config, style, m, args) && m.UpdateOf?
    ensures style == Question && StatementFor(m).cond.None? ==> Count(StatementFor(m).tail, '?') == 0
  {
    hide Count, MutationReady;
  }

  // ----- The slice -----

  lemma OwnOfSlice(config: Config, m: Mutation, v: Value, db: Database)
    requires IsTenantTable(config, m.target.name)
    ensures Fetch(Slice(db, config, v), m.target) == Own(config, m, v, db)
  {
    hide IsTenantTable, BaseName, OwnedRows;
    FetchSlice(db, config, v, m.target);
  }

  /** `after` is `db` with the tenant's rows of the table replaced as in `slice`, and both results agree. */
  ghost predicate Commutes<R(!new)>(config: Config, m: Mutation, v: Value, db: Database, after: (Database, R),
                                    slice: (Database, R)) {
    && after.1 == slice.1
    && after.0 == Store(db, m.target, Fetch(after.0, m.target))
    && slice.0 == Store(Slice(db, config, v), m.target, Fetch(slice.0, m.target))
    && Replaces(Fetch(db, m.target), Fetch(slice.0, m.target), Fetch(after.0, m.target), config.tenantColumn, v,
                m.DeleteOf?)
  }

  function OnDatabase<R>(config: Config, style: Style, m: Mutation, v: Value, args: seq<Value>, db: Database,
                         sense: Sense, assign: Assign, returning: Returning<R>): (Database, R)
    requires ArgsFor(config, style, m, v, args).Ok?
  {
    Execute(style, WithEquation(config, style, m), ArgsFor(config, style, m, v, args).value, db, sense, assign,
            returning)
  }

  function OnSlice<R>(config: Config, style: Style, m: Mutation, v: Value, args: seq<Value>, db: Database, sense: Sense,
                      assign: Assign, returning: Returning<R>): (Database, R) {
    Execute(style, m, args, Slice(db, config, v), sense, assign, returning)
  }

  /** The whole database and the slice agree if and only if the original statement, on the tenant's rows, does the same
      whether its sub-selects read the one or the other. */
  lemma CommutesWhen<R(!new)>(config: Config, style: Style, m: Mutation, v: Value, args: seq<Value>, db: Database,
                              sense: Sense, assign: Assign, returning: Returning<R>)
    requires ReadyFor(config, style, m, args) && v != Null && ArgsFor(config, style, m, v, args).Ok?
    ensures var slice, own := Slice(db, config, v), Own(config, m, v, db);
            var p, qual, f, g := PartsFor(style, m, args), Qualifier(m.target), On(sense, db), On(sense, slice);
            Commutes(config, m, v, db, OnDatabase(config, style, m, v, args, db, sense, assign, returning),
                     OnSlice(config, style, m, v, args, db, sense, assign, returning)) <==>
            && returning(db, p.tail, TouchedRows(own, p.cond, qual, f)) ==
               returning(slice, p.tail, TouchedRows(own, p.cond, qual, g))
            && Mutated(style, m, args, own, f, Assigner(style, m, args, db, assign)) ==
               Mutated(style, m, args, own, g, Assigner(style, m, args, slice, assign))
  {
    hide *;
    var slice, own := Slice(db, config, v), Own(config, m, v, db);
    RewrittenExecution(config, style, m, v, args, db, sense, assign, returning);
    ReadyTarget(config, style, m, args);
    OwnOfSlice(config, m, v, db);
    ExecuteIs(style, m, args, slice, sense, assign, returning);
    RunsAre(config, style, m, v, args, db, sense, assign, returning);
    var after := OnDatabase(config, style, m, v, args, db, sense, assign, returning);
    var other := OnSlice(config, style, m, v, args, db, sense, assign, returning);
    CommutesUnfold(config, m, v, db, after, other);
    ReplacesInjective(Fetch(db, m.target),
                      Mutated(style, m, args, own, On(sense, db), Assigner(style, m, args, db, assign)),
                        Fetch(other.0, m.target), Fetch(after.0, m.target), config.tenantColumn, v, m.DeleteOf?);
  }

  lemma ReadyTarget(config: Config, style: Style, m: Mutation, args: seq<Value>)
    requires ReadyFor(config, style, m, args)
    ensures IsTenantTable(config, m.target.name)
  {
    hide IsTenantTable, MutationReady, Count;
  }

  lemma RunsAre<R>(config: Config, style: Style, m: Mutation, v: Value, args: seq<Value>, db: Database, sense: Sense,
                   assign: Assign, returning: Returning<R>)
    requires ArgsFor(config, style, m, v, args).Ok?
    ensures OnDatabase(config, style, m, v, args, db, sense, assign, returning) ==
            Execute(style, WithEquation(config, style, m), ArgsFor(config, style, m, v, args).value, db, sense, assign,
                    returning)
    ensures OnSlice(config, style, m, v, args, db, sense, assign, returning) ==
            Execute(style, m, args, Slice(db, config, v), sense, assign, returning)
  {
    hide Execute, Slice, WithEquation;
  }

  lemma CommutesUnfold<R(!new)>(config: Config, m: Mutation, v: Value, db: Database, after: (Database, R),
                                slice: (Database, R))
    ensures Commutes(config, m, v, db, after, slice) <==>
            && after.1 == slice.1
            && after.0 == Store(db, m.target, Fetch(after.0, m.target))
            && slice.0 == Store(Slice(db, config, v), m.target, Fetch(slice.0, m.target))
            && Replaces(Fetch(db, m.target), Fetch(slice.0, m.target), Fetch(after.0, m.target), config.tenantColumn, v,
                        m.DeleteOf?)
  {
    hide Store, Slice, Replaces, Fetch;
  }

  /** What replaced the tenant's rows can be told from the result. */
  lemma ReplacesInjective(rows: seq<Row>, slice: seq<Row>, other: seq<Row>, after: seq<Row>, column: string, v: Value,
                          deleting: bool)
    requires Replaces(rows, slice, after, column, v, deleting)
    ensures Replaces(rows, other, after, column, v, deleting) <==> other == slice
  {
    if !deleting && |other| == |slice| {
      hide Owned, OwnedRows;
      if Weave(rows, other, column, v) == after {
        WeaveInjective(rows, slice, other, column, v);
      }
    }
  }

  lemma {:induction false} WeaveInjective(rows: seq<Row>, a: seq<Row>, b: seq<Row>, column: string, v: Value)
    requires |a| == |b| == |OwnedRows(rows, column, v)|
    requires Weave(rows, a, column, v) == Weave(rows, b, column, v)
    ensures a == b
  {
    if rows != [] {
      var x, y := Weave(rows, a, column, v), Weave(rows, b, column, v);
      if Owned(rows[0], column, v) {
        assert x[0] == a[0] && y[0] == b[0] && x[1..] == Weave(rows[1..], a[1..], column, v);
        assert y[1..] == Weave(rows[1..], b[1..], column, v);
        WeaveInjective(rows[1..], a[1..], b[1..], column, v);
        assert a == [a[0]] + a[1..] && b == [b[0]] + b[1..];
      } else {
        assert x[1..] == Weave(rows[1..], a, column, v) && y[1..] == Weave(rows[1..], b, column, v);
        WeaveInjective(rows[1..], a, b, column, v);
      }
    }
  }

  // ----- Meaning preservation -----

  lemma {:induction false} OwnedRowsOwned(rows: seq<Row>, column: string, v: Value)
    ensures forall row :: row in OwnedRows(rows, column, v) ==> Owned(row, column, v)
  {
    if rows != [] {
      hide Owned;
      OwnedRowsOwned(rows[1..], column, v);
    }
  }

  /** The same rows are touched, and what is assigned to them is the same. */
  ghost predicate SameTouch(rows: seq<Row>, cond: Option<seq<Piece>>, qual: string, f: AtomSense, g: AtomSense,
                            a: Row -> Row, b: Row -> Row) {
    forall row :: row in rows ==>
      (Touched(cond, qual, row, f) <==> Touched(cond, qual, row, g))
        && (Touched(cond, qual, row, f) ==> a(row) == b(row))
  }

  lemma {:induction false} SameMutation(rows: seq<Row>, cond: Option<seq<Piece>>, qual: string, f: AtomSense,
                                        g: AtomSense, a: Row -> Row, b: Row -> Row)
    requires SameTouch(rows, cond, qual, f, g, a, b)
    ensures TouchedRows(rows, cond, qual, f) == TouchedRows(rows, cond, qual, g)
    ensures Delete(rows, cond, qual, f) == Delete(rows, cond, qual, g)
    ensures Update(rows, cond, qual, f, a) == Update(rows, cond, qual, g, b)
  {
    if rows != [] {
      hide Touched;
      assert rows[0] in rows;
      SameMutation(rows[1..], cond, qual, f, g, a, b);
    }
  }

  lemma IndifferentTouch(row: Row, cond: Option<seq<Piece>>, qual: string, f: AtomSense, g: AtomSense, column: string,
                         v: Value)
    requires !TablesMatter(cond, qual, column, v) && Alike(f, g) && Owned(row, column, v)
    ensures Touched(cond, qual, row, f) <==> Touched(cond, qual, row, g)
  {
    hide Holds, Owned, NamesTables;
    assert Alike(g, f);
  }

  /** Some row of the tenant can satisfy the condition. */
  ghost predicate CanTouch(cond: Option<seq<Piece>>, qual: string, column: string, v: Value) {
    exists row, f: AtomSense :: Owned(row, column, v) && Touched(cond, qual, row, f)
  }

  /** No part of the statement can tell whether its sub-selects read the whole database or the slice. */
  ghost predicate Indifferent(config: Config, style: Style, m: Mutation, args: seq<Value>, v: Value) {
    var p, qual, column := PartsFor(style, m, args), Qualifier(m.target), config.tenantColumn;
    && !ReadsTables(p.tail) && !TablesMatter(p.cond, qual, column, v)
    && (m.UpdateOf? && CanTouch(p.cond, qual, column, v) ==> !ReadsTables(p.head))
  }

  lemma IndifferentCommutes<R(!new)>(config: Config, style: Style, m: Mutation, v: Value, args: seq<Value>,
                                     db: Database, sense: Sense, assign: Assign, returning: Returning<R>)
    requires ReadyFor(config, style, m, args) && v != Null && ArgsFor(config, style, m, v, args).Ok?
    requires Indifferent(config, style, m, args, v)
    requires Local(sense) && LocalAssign(assign) && LocalReturning(returning)
    ensures Commutes(config, m, v, db, OnDatabase(config, style, m, v, args, db, sense, assign, returning),
                     OnSlice(config, style, m, v, args, db, sense, assign, returning))
  {
    var slice, own, column := Slice(db, config, v), Own(config, m, v, db), config.tenantColumn;
    var p, qual, f, g := PartsFor(style, m, args), Qualifier(m.target), On(sense, db), On(sense, slice);
    hide ReadyFor, Local, Slice, On, Owned, Touched, Commutes, OnDatabase, OnSlice, ArgsFor, Alike, PartsFor,
         ReadsTables, TablesMatter;
    CommutesWhen(config, style, m, v, args, db, sense, assign, returning);
    LocalAlike(sense, db, slice);
    OwnedRowsOwned(Fetch(db, m.target), column, v);
    var a := Assigner(style, m, args, db, assign);
    var b := if m.UpdateOf? then Assigner(style, m, args, slice, assign) else a;
    forall row | row in own
      ensures Touched(p.cond, qual, row, f) <==> Touched(p.cond, qual, row, g)
      ensures Touched(p.cond, qual, row, f) ==> a(row) == b(row)
    {
      IndifferentTouch(row, p.cond, qual, f, g, column, v);
    }
    SameMutation(own, p.cond, qual, f, g, a, b);
  }

  /** No part of the statement names tables: the condition, the tail, and for UPDATE what it assigns. */
  ghost predicate ClosedParts(style: Style, m: Mutation, args: seq<Value>) {
    var p := PartsFor(style, m, args);
    Closed(p.cond) && !ReadsTables(p.tail) && (m.UpdateOf? ==> !ReadsTables(p.head))
  }

  lemma ClosedIsIndifferent(config: Config, style: Style, m: Mutation, args: seq<Value>, v: Value)
    requires ClosedParts(style, m, args)
    ensures Indifferent(config, style, m, args, v)
  {
    hide ReadsTables, PartsFor, TablesMatter, Closed, CanTouch;
    ClosedDoesNotMatter(PartsFor(style, m, args).cond, Qualifier(m.target), config.tenantColumn, v);
  }

  /** Meaning preservation for DELETE: the slice of what the rewritten statement leaves is what the original leaves of
      the slice, other tenants keep every row, no other table changes, and RETURNING gives the same. */
  lemma DeletePreservesMeaning<R(!new)>(config: Config, style: Style, m: Mutation, v: Value, args: seq<Value>,
                                        db: Database, sense: Sense, assign: Assign, returning: Returning<R>)
    requires m.DeleteOf? && ReadyFor(config, style, m, args) && v != Null && ClosedParts(style, m, args)
    requires Local(sense) && LocalAssign(assign) && LocalReturning(returning)
    ensures ArgsFor(config, style, m, v, args).Ok?
    ensures InjectDelete(config, style, StatementText(StatementFor(m)), v, args) ==
            Ok((StatementText(StatementFor(WithEquation(config, style, m))), ArgsFor(config, style, m, v, args).value))
    ensures var after := OnDatabase(config, style, m, v, args, db, sense, assign, returning);
            var slice := OnSlice(config, style, m, v, args, db, sense, assign, returning);
            && after.1 == slice.1
            && Slice(after.0, config, v) == slice.0
            && after.0 == Store(db, m.target, Fetch(after.0, m.target))
            && OtherRows(Fetch(after.0, m.target), config.tenantColumn, v) ==
               OtherRows(Fetch(db, m.target), config.tenantColumn, v)
  {
    InjectText(config, style, m, v, args);
    ReadyTarget(config, style, m, args);
    hide ReadyFor, Local, LocalAssign, LocalReturning, ClosedParts, Slice, OnDatabase, OnSlice, ArgsFor, StatementFor,
         WithEquation, Fetch, Store, OwnedRows, OtherRows, IsTenantTable, InjectDelete, StatementText;
    ClosedIsIndifferent(config, style, m, args, v);
    IndifferentCommutes(config, style, m, v, args, db, sense, assign, returning);
    var after := OnDatabase(config, style, m, v, args, db, sense, assign, returning);
    SliceOfStore(config, m.target, v, db, Fetch(after.0, m.target));
  }

  lemma SliceOfStore(config: Config, t: TableRef, v: Value, db: Database, rows: seq<Row>)
    requires IsTenantTable(config, t.name)
    ensures Slice(Store(db, t, rows), config, v) ==
            Store(Slice(db, config, v), t, OwnedRows(rows, config.tenantColumn, v))
  {
    hide EqualFold, OwnedRows, BaseName;
    BaseNameIdempotent(t.name);
    assert IsTenantTable(config, BaseName(t.name));
  }

  /** Meaning preservation for UPDATE: weaving the slice, as the original leaves it, among the other tenants' rows,
      which do not change, gives what the rewritten statement leaves of the table; no other table changes, and RETURNING
      gives the same. */
  lemma UpdatePreservesMeaning<R(!new)>(config: Config, style: Style, m: Mutation, v: Value, args: seq<Value>,
                                        db: Database, sense: Sense, assign: Assign, returning: Returning<R>)
    requires m.UpdateOf? && ReadyFor(config, style, m, args) && v != Null && ClosedParts(style, m, args)
    requires Local(sense) && LocalAssign(assign) && LocalReturning(returning)
    ensures ArgsFor(config, style, m, v, args).Ok?
    ensures InjectUpdate(config, style, StatementText(StatementFor(m)), v, args) ==
            Ok((StatementText(StatementFor(WithEquation(config, style, m))), ArgsFor(config, style, m, v, args).value))
    ensures var after := OnDatabase(config, style, m, v, args, db, sense, assign, returning);
            var slice := OnSlice(config, style, m, v, args, db, sense, assign, returning);
            var rows := Fetch(db, m.target);
            && after.1 == slice.1
            && |Fetch(slice.0, m.target)| == |OwnedRows(rows, config.tenantColumn, v)|
            && Fetch(after.0, m.target) == Weave(rows, Fetch(slice.0, m.target), config.tenantColumn, v)
            && (forall i :: 0 <= i < |rows| && !Owned(rows[i], config.tenantColumn, v) ==>
                  Fetch(after.0, m.target)[i] == rows[i])
            && after.0 == Store(db, m.target, Fetch(after.0, m.target))
            && slice.0 == Store(Slice(db, config, v), m.target, Fetch(slice.0, m.target))
  {
    InjectText(config, style, m, v, args);
    hide ReadyFor, Local, LocalAssign, LocalReturning, ClosedParts, Slice, OnDatabase, OnSlice, ArgsFor, StatementFor,
         WithEquation, Fetch, Store, OwnedRows, InjectUpdate, StatementText, Weave, Owned;
    ClosedIsIndifferent(config, style, m, args, v);
    IndifferentCommutes(config, style, m, v, args, db, sense, assign, returning);
    var slice := OnSlice(config, style, m, v, args, db, sense, assign, returning);
    WeaveKeepsOthers(Fetch(db, m.target), Fetch(slice.0, m.target), config.tenantColumn, v);
  }

  lemma {:induction false} WeaveKeepsOthers(rows: seq<Row>, slice: seq<Row>, column: string, v: Value)
    requires |slice| == |OwnedRows(rows, column, v)|
    ensures forall i :: 0 <= i < |rows| && !Owned(rows[i], column, v) ==> Weave(rows, slice, column, v)[i] == rows[i]
  {
    if rows != [] {
      hide Owned;
      var rest := if Owned(rows[0], column, v) then slice[1..] else slice;
      WeaveKeepsOthers(rows[1..], rest, column, v);
      forall i | 0 <= i < |rows| && !Owned(rows[i], column, v) ensures Weave(rows, slice, column, v)[i] == rows[i] {
        if i > 0 {
          assert rows[1..][i - 1] == rows[i];
        }
      }
    }
  }

  lemma {:induction false} OwnedOfWeave(rows: seq<Row>, slice: seq<Row>, column: string, v: Value)
    requires |slice| == |OwnedRows(rows, column, v)|
    ensures OwnedRows(Weave(rows, slice, column, v), column, v) == OwnedRows(slice, column, v)
  {
    if rows != [] {
      hide Owned;
      if Owned(rows[0], column, v) {
        OwnedOfWeave(rows[1..], slice[1..], column, v);
        OwnedCons(slice[0], Weave(rows[1..], slice[1..], column, v), column, v);
        OwnedCons(slice[0], slice[1..], column, v);
        assert slice == [slice[0]] + slice[1..];
      } else {
        OwnedOfWeave(rows[1..], slice, column, v);
        OwnedCons(rows[0], Weave(rows[1..], slice, column, v), column, v);
      }
    }
  }

  lemma {:induction false} AllOwned(rows: seq<Row>, column: string, v: Value)
    ensures |OwnedRows(rows, column, v)| <= |rows|
    ensures OwnedRows(rows, column, v) == rows <==> forall row :: row in rows ==> Owned(row, column, v)
  {
    if rows != [] {
      hide Owned;
      AllOwned(rows[1..], column, v);
      assert rows == [rows[0]] + rows[1..];
    }
  }

  /** The slice of what a rewritten UPDATE leaves is what the original leaves of the slice if and only if the original
      leaves the tenant's rows with the tenant. */
  lemma UpdateStaysInSlice<R(!new)>(config: Config, style: Style, m: Mutation, v: Value, args: seq<Value>, db: Database,
                                    sense: Sense, assign: Assign, returning: Returning<R>)
    requires m.UpdateOf? && ReadyFor(config, style, m, args) && v != Null && ClosedParts(style, m, args)
    requires Local(sense) && LocalAssign(assign) && LocalReturning(returning)
    ensures ArgsFor(config, style, m, v, args).Ok?
    ensures var after := OnDatabase(config, style, m, v, args, db, sense, assign, returning).0;
            var slice := OnSlice(config, style, m, v, args, db, sense, assign, returning).0;
            && (Slice(after, config, v) == slice <==>
                forall row :: row in Fetch(slice, m.target) ==> Owned(row, config.tenantColumn, v))
  {
    ReadyTarget(config, style, m, args);
    hide ReadyFor, Local, LocalAssign, LocalReturning, ClosedParts, Slice, OnDatabase, OnSlice, ArgsFor, StatementFor,
         WithEquation, Fetch, Store, OwnedRows, StatementText, Weave, Owned, IsTenantTable;
    UpdatePreservesMeaning(config, style, m, v, args, db, sense, assign, returning);
    var after := OnDatabase(config, style, m, v, args, db, sense, assign, returning).0;
    var slice := OnSlice(config, style, m, v, args, db, sense, assign, returning).0;
    var own := OwnedRows(Fetch(after, m.target), config.tenantColumn, v);
    SliceOfStore(config, m.target, v, db, Fetch(after, m.target));
    OwnedOfWeave(Fetch(db, m.target), Fetch(slice, m.target), config.tenantColumn, v);
    AllOwned(Fetch(slice, m.target), config.tenantColumn, v);
    FetchSlice(after, config, v, m.target);
  }

  // ----- Exactly when -----

  /** The rewriting is right on every database, under every meaning of the statement's words. */
  ghost predicate FaithfulMutation(config: Config, style: Style, m: Mutation, v: Value, args: seq<Value>)
    requires ArgsFor(config, style, m, v, args).Ok?
  {
    forall db, sense, assign, returning: Returning<seq<Row>> ::
      Local(sense) && LocalAssign(assign) && LocalReturning(returning) ==>
        Commutes(config, m, v, db, OnDatabase(config, style, m, v, args, db, sense, assign, returning),
                 OnSlice(config, style, m, v, args, db, sense, assign, returning))
  }

  lemma NotFaithfulMutation(config: Config, style: Style, m: Mutation, v: Value, args: seq<Value>, db: Database,
                            sense: Sense, assign: Assign, returning: Returning<seq<Row>>)
    requires ArgsFor(config, style, m, v, args).Ok?
    requires Local(sense) && LocalAssign(assign) && LocalReturning(returning)
    requires !Commutes(config, m, v, db, OnDatabase(config, style, m, v, args, db, sense, assign, returning),
                       OnSlice(config, style, m, v, args, db, sense, assign, returning))
    ensures !FaithfulMutation(config, style, m, v, args)
  {
    hide Commutes, OnDatabase, OnSlice, Local, LocalAssign, LocalReturning, ArgsFor;
  }

  function Unchanged(): Assign {
    (db, head, row) => row
  }

  function ReturningTable(t: TableRef): Returning<seq<Row>> {
    (db, tail, rows) => if ReadsTables(tail) then Fetch(db, t) else []
  }

  function ReturningRows(): Returning<seq<Row>> {
    (db, tail, rows) => rows
  }

  /** A SET clause that names tables may assign what it finds there. */
  function AssignIn(db: Database): Assign {
    (d, head, row) => if ReadsTables(head) && d == db then map[] else row
  }

  lemma WitnessesLocal(t: TableRef, db: Database, f: AtomSense)
    ensures LocalAssign(Unchanged()) && LocalReturning(ReturningTable(t)) && LocalReturning(ReturningRows())
    ensures LocalAssign(AssignIn(db)) && Local(SenseOf(f))
  {
    hide ReadsTables, NamesTables, Fetch;
  }

  lemma StrangeTarget(config: Config, t: TableRef, v: Value)
    requires IsTenantTable(config, t.name)
    ensures Fetch(Strange(t.name), t) != Fetch(Slice(Strange(t.name), config, v), t)
  {
    hide BaseName, IsTenantTable;
    FetchSlice(Strange(t.name), config, v, t);
  }

  lemma ReadingReturningLeaks(config: Config, style: Style, m: Mutation, v: Value, args: seq<Value>)
    requires ReadyFor(config, style, m, args) && v != Null && ArgsFor(config, style, m, v, args).Ok?
    requires ReadsTables(PartsFor(style, m, args).tail)
    ensures !FaithfulMutation(config, style, m, v, args)
  {
    hide *;
    var db, sense := Strange(m.target.name), SenseOf(Always());
    ReadyTarget(config, style, m, args);
    WitnessesLocal(m.target, db, Always());
    StrangeTarget(config, m.target, v);
    var tail, returning := PartsFor(style, m, args).tail, ReturningTable(m.target);
    assert forall d, rows {:trigger returning(d, tail, rows)} :: returning(d, tail, rows) == Fetch(d, m.target) by {
      ReturningTableReads(m.target, tail);
    }
    CommutesWhen(config, style, m, v, args, db, sense, Unchanged(), returning);
    NotFaithfulMutation(config, style, m, v, args, db, sense, Unchanged(), returning);
  }

  lemma ReturningTableReads(t: TableRef, tail: seq<Piece>)
    requires ReadsTables(tail)
    ensures forall d, rows {:trigger ReturningTable(t)(d, tail, rows)} ::
            ReturningTable(t)(d, tail, rows) == Fetch(d, t)
  {
    hide ReadsTables, Fetch;
  }

  lemma OneTouched(row: Row, cond: Option<seq<Piece>>, qual: string, f: AtomSense)
    ensures TouchedRows([row], cond, qual, f) == if Touched(cond, qual, row, f) then [row] else []
  {
    assert [row][1..] == [];
  }

  lemma OneUpdated(row: Row, cond: Option<seq<Piece>>, qual: string, f: AtomSense, assign: Row -> Row)
    ensures Update([row], cond, qual, f, assign) == [if Touched(cond, qual, row, f) then assign(row) else row]
  {
    hide Touched;
    assert [row][1..] == [];
  }

  lemma OwnOfTwoRows(config: Config, m: Mutation, v: Value, row: Row)
    requires Owned(row, config.tenantColumn, v)
    ensures Own(config, m, v, TwoRows(m.target.name, row)) == [row]
  {
    hide BaseName;
    TwoRowsOwned(row, config.tenantColumn, v);
  }

  lemma TouchedIsHolds(cond: Option<seq<Piece>>, qual: string, row: Row, f: AtomSense)
    ensures Touched(cond, qual, row, f) == Holds(cond, [Binding(qual, row)], f)
  {
    hide Holds;
  }

  lemma MatteringMutationLeaks(config: Config, style: Style, m: Mutation, v: Value, args: seq<Value>)
    requires ReadyFor(config, style, m, args) && v != Null && ArgsFor(config, style, m, v, args).Ok?
    requires TablesMatter(PartsFor(style, m, args).cond, Qualifier(m.target), config.tenantColumn, v)
    ensures !FaithfulMutation(config, style, m, v, args)
  {
    var cond, qual, column := PartsFor(style, m, args).cond, Qualifier(m.target), config.tenantColumn;
    var row, f: AtomSense, g: AtomSense :|
      && Owned(row, column, v) && Alike(f, g) && Holds(cond, [Binding(qual, row)], f)
         && !Holds(cond, [Binding(qual, row)], g);
    hide *;
    var db := TwoRows(m.target.name, row);
    var slice, sense := Slice(db, config, v), Telling(db, f, g);
    ReadyTarget(config, style, m, args);
    TwoRowsSlice(config, m.target, row, v);
    OwnOfTwoRows(config, m, v, row);
    TellingLocal(db, slice, f, g, cond, [Binding(qual, row)]);
    WitnessesLocal(m.target, db, f);
    OneTouched(row, cond, qual, On(sense, db));
    OneTouched(row, cond, qual, On(sense, slice));
    TouchedIsHolds(cond, qual, row, On(sense, db));
    TouchedIsHolds(cond, qual, row, On(sense, slice));
    ReturnsRows(db, PartsFor(style, m, args).tail);
    ReturnsRows(slice, PartsFor(style, m, args).tail);
    CommutesWhen(config, style, m, v, args, db, sense, Unchanged(), ReturningRows());
    NotFaithfulMutation(config, style, m, v, args, db, sense, Unchanged(), ReturningRows());
  }

  lemma ReturnsRows(db: Database, tail: seq<Piece>)
    ensures forall rows {:trigger ReturningRows()(db, tail, rows)} :: ReturningRows()(db, tail, rows) == rows
  {
  }

  lemma ReadingSetLeaks(config: Config, style: Style, m: Mutation, v: Value, args: seq<Value>)
    requires ReadyFor(config, style, m, args) && v != Null && ArgsFor(config, style, m, v, args).Ok?
    requires m.UpdateOf? && ReadsTables(PartsFor(style, m, args).head)
    requires CanTouch(PartsFor(style, m, args).cond, Qualifier(m.target), config.tenantColumn, v)
    ensures !FaithfulMutation(config, style, m, v, args)
  {
    var p, qual, column := PartsFor(style, m, args), Qualifier(m.target), config.tenantColumn;
    var row, f: AtomSense :| Owned(row, column, v) && Touched(p.cond, qual, row, f);
    assert row != map[];
    hide *;
    var db := TwoRows(m.target.name, row);
    var slice, sense, assign := Slice(db, config, v), SenseOf(f), AssignIn(db);
    ReadyTarget(config, style, m, args);
    TwoRowsSlice(config, m.target, row, v);
    OwnOfTwoRows(config, m, v, row);
    WitnessesLocal(m.target, db, f);
    SenseOfTouches(p.cond, qual, row, f, db);
    SenseOfTouches(p.cond, qual, row, f, slice);
    OneUpdated(row, p.cond, qual, On(sense, db), Assigner(style, m, args, db, assign));
    OneUpdated(row, p.cond, qual, On(sense, slice), Assigner(style, m, args, slice, assign));
    AssignInTells(style, m, args, db, slice, row);
    MutatedUpdate(style, m, args, [row], On(sense, db), Assigner(style, m, args, db, assign));
    MutatedUpdate(style, m, args, [row], On(sense, slice), Assigner(style, m, args, slice, assign));
    CommutesWhen(config, style, m, v, args, db, sense, assign, ReturningRows());
    NotFaithfulMutation(config, style, m, v, args, db, sense, assign, ReturningRows());
  }

  lemma SenseOfTouches(cond: Option<seq<Piece>>, qual: string, row: Row, f: AtomSense, db: Database)
    ensures Touched(cond, qual, row, On(SenseOf(f), db)) <==> Touched(cond, qual, row, f)
  {
    hide Holds;
    HoldsPointwise(cond, [Binding(qual, row)], On(SenseOf(f), db), f);
  }

  lemma AssignInTells(style: Style, m: Mutation, args: seq<Value>, db: Database, slice: Database, row: Row)
    requires ReadsTables(PartsFor(style, m, args).head) && slice != db
    ensures Assigner(style, m, args, db, AssignIn(db))(row) == map[]
    ensures Assigner(style, m, args, slice, AssignIn(db))(row) == row
  {
    hide PartsFor, ReadsTables;
  }

  lemma MutatedUpdate(style: Style, m: Mutation, args: seq<Value>, rows: seq<Row>, f: AtomSense, assign: Row -> Row)
    requires m.UpdateOf?
    ensures Mutated(style, m, args, rows, f, assign) ==
            Update(rows, PartsFor(style, m, args).cond, Qualifier(m.target), f, assign)
  {
    hide PartsFor, Update;
  }

  lemma IndifferentIsFaithful(config: Config, style: Style, m: Mutation, v: Value, args: seq<Value>)
    requires ReadyFor(config, style, m, args) && v != Null && ArgsFor(config, style, m, v, args).Ok?
    requires Indifferent(config, style, m, args, v)
    ensures FaithfulMutation(config, style, m, v, args)
  {
    hide ReadyFor, ArgsFor, Commutes, OnDatabase, OnSlice, Local, LocalAssign, LocalReturning, Indifferent;
    forall db, sense, assign, returning: Returning<seq<Row>> |
      Local(sense) && LocalAssign(assign) && LocalReturning(returning)
      ensures Commutes(config, m, v, db, OnDatabase(config, style, m, v, args, db, sense, assign, returning),
                       OnSlice(config, style, m, v, args, db, sense, assign, returning))
    {
      IndifferentCommutes(config, style, m, v, args, db, sense, assign, returning);
    }
  }

  /** The rewriting of an UPDATE or DELETE of a tenant table is right on every database if and only if no part of the
      statement can tell whether its sub-selects read the whole database or the slice. */
  lemma MutationExact(config: Config, style: Style, m: Mutation, v: Value, args: seq<Value>)
    requires ReadyFor(config, style, m, args) && v != Null
    ensures ArgsFor(config, style, m, v, args).Ok?
    ensures FaithfulMutation(config, style, m, v, args) <==> Indifferent(config, style, m, args, v)
  {
    ArgsAreExtended(config, style, m, v, args);
    hide ReadyFor, ArgsFor, FaithfulMutation, ReadsTables, TablesMatter, CanTouch, PartsFor;
    if Indifferent(config, style, m, args, v) {
      IndifferentIsFaithful(config, style, m, v, args);
    } else if ReadsTables(PartsFor(style, m, args).tail) {
      ReadingReturningLeaks(config, style, m, v, args);
    } else if TablesMatter(PartsFor(style, m, args).cond, Qualifier(m.target), config.tenantColumn, v) {
      MatteringMutationLeaks(config, style, m, v, args);
    } else {
      ReadingSetLeaks(config, style, m, v, args);
    }
  }

  /** In particular it is wrong whenever the condition is nothing but a comparison with a sub-select. */
  lemma SubSelectLeaks(config: Config, style: Style, m: Mutation, v: Value, args: seq<Value>, words: seq<Lexeme>)
    requires ReadyFor(config, style, m, args) && v != Null && ArgsFor(config, style, m, v, args).Ok?
    requires PartsFor(style, m, args).cond.Some? && Parse(PartsFor(style, m, args).cond.value) == Some(Atom(words))
    requires NamesTables(words) && !IsEquation(words)
    ensures !FaithfulMutation(config, style, m, v, args)
  {
    hide *;
    SubSelectMatters(PartsFor(style, m, args).cond.value, words, Qualifier(m.target), config.tenantColumn, v);
    MatteringMutationLeaks(config, style, m, v, args);
  }
}
