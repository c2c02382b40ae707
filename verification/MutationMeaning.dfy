/** A rewritten UPDATE or DELETE touches exactly the rows of the tenant that the original would touch on the tenant's
    slice. */
module MutationMeaning {
  import opened Text
  import opened Decimal
  import opened Placeholders
  import opened Keywords
  import opened FromClause
  import opened Rewriter
  import opened Bindings
  import opened Conditions
  import opened Relations
  import opened SelectMeaning

  // ----- Running the statements on one table -----

  function Touched(cond: Option<seq<Piece>>, qual: string, row: Row, sense: AtomSense): bool {
    Holds(cond, [Binding(qual, row)], sense)
  }

  /** The rows the statement applies to, in order: what RETURNING sees. */
  function TouchedRows(rows: seq<Row>, cond: Option<seq<Piece>>, qual: string, sense: AtomSense): seq<Row> {
    if rows == [] then []
    else (if Touched(cond, qual, rows[0], sense) then [rows[0]] else []) + TouchedRows(rows[1..], cond, qual, sense)
  }

  function Delete(rows: seq<Row>, cond: Option<seq<Piece>>, qual: string, sense: AtomSense): seq<Row> {
    if rows == [] then []
    else (if Touched(cond, qual, rows[0], sense) then [] else [rows[0]]) + Delete(rows[1..], cond, qual, sense)
  }

  function Update(rows: seq<Row>, cond: Option<seq<Piece>>, qual: string, sense: AtomSense,
                  assign: Row -> Row): (r: seq<Row>)
    ensures |r| == |rows|
  {
    if rows == [] then []
    else
      [if Touched(cond, qual, rows[0], sense) then assign(rows[0]) else rows[0]] +
      Update(rows[1..], cond, qual, sense, assign)
  }

  function OtherRows(rows: seq<Row>, column: string, v: Value): seq<Row> {
    if rows == [] then []
    else (if Owned(rows[0], column, v) then [] else [rows[0]]) + OtherRows(rows[1..], column, v)
  }

  /** `rows` with the tenant's rows replaced, in order, by `slice`. */
  function Weave(rows: seq<Row>, slice: seq<Row>, column: string, v: Value): (r: seq<Row>)
    requires |slice| == |OwnedRows(rows, column, v)|
    ensures |r| == |rows|
  {
    if rows == [] then []
    else if Owned(rows[0], column, v) then [slice[0]] + Weave(rows[1..], slice[1..], column, v)
    else [rows[0]] + Weave(rows[1..], slice, column, v)
  }

  /** The two conditions that the lemmas below compare. */
  ghost predicate Narrowed(rows: seq<Row>, cond: Option<seq<Piece>>, cond': Option<seq<Piece>>, qual: string,
                           sense: AtomSense, column: string, v: Value) {
    forall row :: row in rows ==>
      (Touched(cond', qual, row, sense) <==> Owned(row, column, v) && Touched(cond, qual, row, sense))
  }

  lemma NarrowedTail(rows: seq<Row>, cond: Option<seq<Piece>>, cond': Option<seq<Piece>>, qual: string,
                     sense: AtomSense, column: string, v: Value)
    requires rows != [] && Narrowed(rows, cond, cond', qual, sense, column, v)
    ensures Narrowed(rows[1..], cond, cond', qual, sense, column, v)
    ensures Touched(cond', qual, rows[0], sense) <==> Owned(rows[0], column, v) && Touched(cond, qual, rows[0], sense)
  {
    assert rows[0] in rows;
  }

  lemma OwnedCons(row: Row, rows: seq<Row>, column: string, v: Value)
    ensures OwnedRows([row] + rows, column, v) == (if Owned(row, column, v) then [row] else []) +
            OwnedRows(rows, column, v)
    ensures OtherRows([row] + rows, column, v) == (if Owned(row, column, v) then [] else [row]) +
            OtherRows(rows, column, v)
  {
    assert ([row] + rows)[1..] == rows;
  }

  lemma {:induction false} TouchedOwned(rows: seq<Row>, cond: Option<seq<Piece>>, cond': Option<seq<Piece>>,
                                        qual: string, sense: AtomSense, column: string, v: Value)
    requires Narrowed(rows, cond, cond', qual, sense, column, v)
    ensures TouchedRows(rows, cond', qual, sense) == TouchedRows(OwnedRows(rows, column, v), cond, qual, sense)
  {
    if rows != [] {
      NarrowedTail(rows, cond, cond', qual, sense, column, v);
      TouchedOwned(rows[1..], cond, cond', qual, sense, column, v);
      hide Touched, Owned, Narrowed;
      var rest := OwnedRows(rows[1..], column, v);
      assert ([rows[0]] + rest)[1..] == rest && [] + rest == rest;
    }
  }

  lemma {:induction false} DeleteOwned(rows: seq<Row>, cond: Option<seq<Piece>>, cond': Option<seq<Piece>>,
                                       qual: string, sense: AtomSense, column: string, v: Value)
    requires Narrowed(rows, cond, cond', qual, sense, column, v)
    ensures OtherRows(Delete(rows, cond', qual, sense), column, v) == OtherRows(rows, column, v)
    ensures OwnedRows(Delete(rows, cond', qual, sense), column, v) ==
            Delete(OwnedRows(rows, column, v), cond, qual, sense)
  {
    if rows != [] {
      NarrowedTail(rows, cond, cond', qual, sense, column, v);
      DeleteOwned(rows[1..], cond, cond', qual, sense, column, v);
      hide Touched, Owned, Narrowed;
      OwnedCons(rows[0], Delete(rows[1..], cond', qual, sense), column, v);
      var rest, gone := OwnedRows(rows[1..], column, v), Delete(rows[1..], cond', qual, sense);
      assert ([rows[0]] + rest)[1..] == rest && [] + rest == rest && [] + gone == gone;
    }
  }

  lemma {:induction false} UpdateOwned(rows: seq<Row>, cond: Option<seq<Piece>>, cond': Option<seq<Piece>>,
                                       qual: string, sense: AtomSense, column: string, v: Value, assign: Row -> Row)
    requires Narrowed(rows, cond, cond', qual, sense, column, v)
    ensures Update(rows, cond', qual, sense, assign) ==
            Weave(rows, Update(OwnedRows(rows, column, v), cond, qual, sense, assign), column, v)
    ensures forall i :: 0 <= i < |rows| && !Owned(rows[i], column, v) ==>
            Update(rows, cond', qual, sense, assign)[i] == rows[i]
  {
    hide Touched, Owned, Narrowed;
    if rows != [] {
      NarrowedTail(rows, cond, cond', qual, sense, column, v);
      UpdateOwned(rows[1..], cond, cond', qual, sense, column, v, assign);
      var rest := OwnedRows(rows[1..], column, v);
      assert ([rows[0]] + rest)[1..] == rest && [] + rest == rest;
      var updated := Update([rows[0]] + rest, cond, qual, sense, assign);
      assert updated[1..] == Update(rest, cond, qual, sense, assign);
    }
  }

  // ----- Statements -----

  /** An UPDATE or DELETE without reserved words in its parts; `head` ends before WHERE and the tail is a RETURNING
      clause. */
  ghost predicate GoodMutation(s: Statement) {
    GoodStatement(s, MutationEnds(), ["RETURNING"])
  }

  /** What the theorems ask of a statement and its arguments. */
  ghost predicate MutationReady(config: Config, style: Style, s: Statement, args: seq<Value>) {
    && GoodMutation(s) && GoodColumn(config.tenantColumn) && NotOperator(config.tenantColumn)
    && |args| == ExistingPlaceholders(style, StatementText(s)) && |args| < MAX_INT && CountsAll(style, StatementText(s))
    && (s.cond.Some? ==> Parse(Resolve(style, s.cond.value, args, Count(s.head, '?'))).Some?)
  }

  function TenantEquation(config: Config, style: Style, s: Statement): string {
    Equals(style, config.tenantColumn, ExistingPlaceholders(style, StatementText(s)) + 1)
  }

  lemma MutationTextIs(config: Config, style: Style, s: Statement)
    requires GoodMutation(s)
    ensures MutationText(config, style, StatementText(s)) ==
            StatementText(WithFilter(s, TenantEquation(config, style, s)))
  {
    hide InjectWhere, GoodStatement, StatementText, Equals, ExistingPlaceholders, WithFilter;
    EndsNonEmpty();
    InjectWhereStatement(s, TenantEquation(config, style, s), MutationEnds(), ["RETURNING"], false);
  }

  /** The rewritten statement, with its arguments in place: same head, same tail, and the tenant equation in front of
      the parenthesised condition. */
  lemma MutationParts(config: Config, style: Style, s: Statement, v: Value, args: seq<Value>, args': seq<Value>)
    requires MutationReady(config, style, s, args)
    requires ArgsExtended(style, args, args', [v], Count(s.head, '?'))
    ensures var p, p' :=
            PartsOf(style, s, args), PartsOf(style, WithFilter(s, TenantEquation(config, style, s)), args');
            && p'.head == p.head && p'.tail == p.tail
            && p'.cond == Some(ConjoinedPieces(EqualsPieces(config.tenantColumn, v), TrimmedCondition(style, s, args)))
  {
    hide *;
    ReadyParts(config, style, s, args);
    var n := Count(s.head, '?');
    EquationBinds(style, s, v, args, args');
    ResolveEquals(style, config.tenantColumn, |args| + 1, args', n, v);
    EquationUnfold(config, style, s);
    BindingsPreserved(style, s, TenantEquation(config, style, s), EqualsPieces(config.tenantColumn, v), args, args',
                      [v]);
    TrimmedUnfold(style, s, args);
  }

  function TrimmedCondition(style: Style, s: Statement, args: seq<Value>): Option<seq<Piece>> {
    match s.cond case None => None case Some(c) => Some(Resolve(style, Trim(c), args, Count(s.head, '?')))
  }

  lemma TrimmedUnfold(style: Style, s: Statement, args: seq<Value>)
    ensures TrimmedCondition(style, s, args) ==
            match s.cond case None => None case Some(c) => Some(Resolve(style, Trim(c), args, Count(s.head, '?')))
  {
  }

  lemma EquationUnfold(config: Config, style: Style, s: Statement)
    ensures TenantEquation(config, style, s) ==
            Equals(style, config.tenantColumn, ExistingPlaceholders(style, StatementText(s)) + 1)
  {
  }

  lemma ReadyParts(config: Config, style: Style, s: Statement, args: seq<Value>)
    requires MutationReady(config, style, s, args)
    ensures |args| == ExistingPlaceholders(style, StatementText(s)) && |args| < MAX_INT
            && CountsAll(style, StatementText(s))
    ensures Plain(config.tenantColumn) && config.tenantColumn != "" && GoodName(config.tenantColumn)
    ensures NotOperator(config.tenantColumn) && '.' !in config.tenantColumn
    ensures s.tail == "" || s.tail[0] == ' '
    ensures s.cond.Some? ==> Parse(Resolve(style, s.cond.value, args, Count(s.head, '?'))).Some?
  {
    hide ExistingPlaceholders, Resolve, Parse, StatementText;
  }

  lemma EquationBinds(style: Style, s: Statement, v: Value, args: seq<Value>, args': seq<Value>)
    requires |args| < MAX_INT && ArgsExtended(style, args, args', [v], Count(s.head, '?'))
    ensures BindsTenant(style, args', Count(s.head, '?'), |args| + 1, v)
    ensures MarkCount(style, 1) == MarkCount(style, |[v]|)
  {
    hide Count;
  }

  /** The rewritten condition touches a row exactly when the row is the tenant's and the original condition touches
      it. */
  lemma MutationNarrows(config: Config, style: Style, s: Statement, v: Value, args: seq<Value>, args': seq<Value>,
                        rows: seq<Row>, qual: string, sense: AtomSense)
    requires MutationReady(config, style, s, args) && v != Null
    requires ArgsExtended(style, args, args', [v], Count(s.head, '?'))
    ensures var p, p' :=
            PartsOf(style, s, args), PartsOf(style, WithFilter(s, TenantEquation(config, style, s)), args');
            Narrowed(rows, p.cond, p'.cond, qual, sense, config.tenantColumn, v)
  {
    hide PartsOf, TenantEquation, Holds, Owned, Resolve, Lex, Parse, GoodStatement, MutationReady, ArgsExtended;
    MutationParts(config, style, s, v, args, args');
    ReadyParts(config, style, s, args);
    PartsOfFields(style, s, args);
    TrimmedUnfold(style, s, args);
    var column := config.tenantColumn;
    var p, p' := PartsOf(style, s, args), PartsOf(style, WithFilter(s, TenantEquation(config, style, s)), args');
    var atom := TenantAtom(column, v);
    hide TrimmedCondition;
    LexEquals(column, v);
    OneAtom(atom);
    if s.cond.Some? {
      LexTrimmed(style, s.cond.value, args, Count(s.head, '?'));
    }
    hide TenantAtom, EqualsPieces, AndedLexemes;
    forall row | row in rows
      ensures Touched(p'.cond, qual, row, sense) <==> Owned(row, column, v) && Touched(p.cond, qual, row, sense)
    {
      var env := [Binding(qual, row)];
      BareAtomTruth(Binding(qual, row), column, v, sense);
      assert TenantAtom(column, v) in [atom];
      ConjunctionHolds(EqualsPieces(column, v), [atom], p.cond, TrimmedCondition(style, s, args), env, sense);
    }
  }

  lemma {:induction false} NarrowedDelete(rows: seq<Row>, cond: Option<seq<Piece>>, cond': Option<seq<Piece>>,
                                          qual: string, sense: AtomSense, column: string, v: Value)
    requires Narrowed(rows, cond, cond', qual, sense, column, v)
    ensures |Delete(rows, cond, qual, sense)| <= |Delete(rows, cond', qual, sense)|
    ensures Delete(rows, cond', qual, sense) == Delete(rows, cond, qual, sense) <==>
            forall row :: row in rows && Touched(cond, qual, row, sense) ==> Owned(row, column, v)
  {
    if rows != [] {
      hide Touched, Owned, Narrowed;
      NarrowedTail(rows, cond, cond', qual, sense, column, v);
      NarrowedDelete(rows[1..], cond, cond', qual, sense, column, v);
      var rest, rest' := Delete(rows[1..], cond, qual, sense), Delete(rows[1..], cond', qual, sense);
      assert rows == [rows[0]] + rows[1..];
      var kept, kept' := Delete(rows, cond, qual, sense), Delete(rows, cond', qual, sense);
      if Touched(cond', qual, rows[0], sense) {
        assert kept == [] + rest == rest && kept' == [] + rest' == rest';
      } else if Touched(cond, qual, rows[0], sense) {
        assert kept == [] + rest == rest && kept' == [rows[0]] + rest';
        assert rows[0] in rows && !Owned(rows[0], column, v);
      } else {
        assert kept == [rows[0]] + rest && kept' == [rows[0]] + rest';
        assert kept[1..] == rest && kept'[1..] == rest';
      }
    }
  }

  /** The rewriter does not ask whether the table of a DELETE is a tenant table: any table's rows are deleted as before
      if and only if all rows the original deletes carry the tenant. */
  lemma DeleteAnyTableExact(config: Config, style: Style, s: Statement, v: Value, args: seq<Value>, args': seq<Value>,
                            rows: seq<Row>, qual: string, sense: AtomSense)
    requires MutationReady(config, style, s, args) && v != Null
    requires ArgsExtended(style, args, args', [v], Count(s.head, '?'))
    ensures var p, p' :=
            PartsOf(style, s, args), PartsOf(style, WithFilter(s, TenantEquation(config, style, s)), args');
            Delete(rows, p'.cond, qual, sense) == Delete(rows, p.cond, qual, sense) <==>
            forall row :: row in rows && Touched(p.cond, qual, row, sense) ==> Owned(row, config.tenantColumn, v)
  {
    hide *;
    MutationNarrows(config, style, s, v, args, args', rows, qual, sense);
    NarrowedDelete(rows, PartsOf(style, s, args).cond,
                   PartsOf(style, WithFilter(s, TenantEquation(config, style, s)), args').cond, qual, sense,
                     config.tenantColumn, v);
  }

  lemma {:induction false} NarrowedUpdate(rows: seq<Row>, cond: Option<seq<Piece>>, cond': Option<seq<Piece>>,
                                          qual: string, sense: AtomSense, column: string, v: Value, assign: Row -> Row)
    requires Narrowed(rows, cond, cond', qual, sense, column, v)
    ensures Update(rows, cond', qual, sense, assign) == Update(rows, cond, qual, sense, assign) <==>
            forall row :: row in rows && Touched(cond, qual, row, sense) && !Owned(row, column, v) ==>
              assign(row) == row
  {
    if rows != [] {
      hide Touched, Owned, Narrowed;
      NarrowedTail(rows, cond, cond', qual, sense, column, v);
      NarrowedUpdate(rows[1..], cond, cond', qual, sense, column, v, assign);
      assert rows == [rows[0]] + rows[1..];
      var x, y := Update(rows, cond', qual, sense, assign), Update(rows, cond, qual, sense, assign);
      assert x[1..] == Update(rows[1..], cond', qual, sense, assign);
      assert y[1..] == Update(rows[1..], cond, qual, sense, assign);
      assert x == [x[0]] + x[1..] && y == [y[0]] + y[1..];
    }
  }

  /** Nor does it for an UPDATE: any table is updated as before if and only if the original leaves every row it touches
      that does not carry the tenant as it is. */
  lemma UpdateAnyTableExact(config: Config, style: Style, s: Statement, v: Value, args: seq<Value>, args': seq<Value>,
                            rows: seq<Row>, qual: string, sense: AtomSense, assign: Row -> Row)
    requires MutationReady(config, style, s, args) && v != Null
    requires ArgsExtended(style, args, args', [v], Count(s.head, '?'))
    ensures var p, p' :=
            PartsOf(style, s, args), PartsOf(style, WithFilter(s, TenantEquation(config, style, s)), args');
            Update(rows, p'.cond, qual, sense, assign) == Update(rows, p.cond, qual, sense, assign) <==>
            forall row :: row in rows && Touched(p.cond, qual, row, sense) && !Owned(row, config.tenantColumn, v) ==>
                            assign(row) == row
  {
    hide *;
    MutationNarrows(config, style, s, v, args, args', rows, qual, sense);
    NarrowedUpdate(rows, PartsOf(style, s, args).cond,
                   PartsOf(style, WithFilter(s, TenantEquation(config, style, s)), args').cond, qual, sense,
                   config.tenantColumn, v, assign);
  }

  lemma OneAtom(a: seq<Lexeme>)
    ensures AndedLexemes([a]) == a
  {
  }

  // ----- DELETE -----

  /** DELETE on the rows of its table: other tenants keep every row, the tenant's rows end as the original leaves them
      on the tenant's slice, and RETURNING sees the same rows with the same text. */
  lemma DeleteOnRows(config: Config, style: Style, s: Statement, v: Value, args: seq<Value>,
                     rows: seq<Row>, qual: string, sense: AtomSense)
    requires MutationReady(config, style, s, args) && v != Null
    requires style == Question ==> Count(s.head, '?') == 0
    ensures var s' := WithFilter(s, TenantEquation(config, style, s));
            var args' := if style == Question then [v] + args else args + [v];
            var p, p' := PartsOf(style, s, args), PartsOf(style, s', args');
            && InjectDelete(config, style, StatementText(s), v, args) == Ok((StatementText(s'), args'))
            && p'.head == p.head && p'.tail == p.tail
            && OtherRows(Delete(rows, p'.cond, qual, sense), config.tenantColumn, v) ==
               OtherRows(rows, config.tenantColumn, v)
            && OwnedRows(Delete(rows, p'.cond, qual, sense), config.tenantColumn, v) ==
               Delete(OwnedRows(rows, config.tenantColumn, v), p.cond, qual, sense)
            && TouchedRows(rows, p'.cond, qual, sense) ==
               TouchedRows(OwnedRows(rows, config.tenantColumn, v), p.cond, qual, sense)
  {
    hide *;
    var args' := if style == Question then [v] + args else args + [v];
    TenantFirst(style, args, v, Count(s.head, '?'));
    ReadyIsGood(config, style, s, args);
    MutationTextIs(config, style, s);
    InjectDeleteIs(config, style, StatementText(s), v, args);
    MutationParts(config, style, s, v, args, args');
    MutationNarrows(config, style, s, v, args, args', rows, qual, sense);
    var p, p' := PartsOf(style, s, args), PartsOf(style, WithFilter(s, TenantEquation(config, style, s)), args');
    DeleteOwned(rows, p.cond, p'.cond, qual, sense, config.tenantColumn, v);
    TouchedOwned(rows, p.cond, p'.cond, qual, sense, config.tenantColumn, v);
  }

  lemma TenantFirst(style: Style, args: seq<Value>, v: Value, n: nat)
    requires style == Question ==> n == 0
    ensures ArgsExtended(style, args, if style == Question then [v] + args else args + [v], [v], n)
  {
    assert args[..0] == [] && args[0..] == args;
  }

  lemma InjectDeleteIs(config: Config, style: Style, query: string, v: Value, args: seq<Value>)
    ensures InjectDelete(config, style, query, v, args) ==
            Ok((MutationText(config, style, query), if style == Question then [v] + args else args + [v]))
  {
    hide MutationText;
  }

  lemma ReadyIsGood(config: Config, style: Style, s: Statement, args: seq<Value>)
    requires MutationReady(config, style, s, args)
    ensures GoodMutation(s)
  {
    hide GoodStatement;
  }

  // ----- UPDATE -----

  /** Where the arguments of an UPDATE are cut is where its head ends, unless marks follow a head without WHERE. */
  lemma SetArgCountIs(s: Statement)
    requires GoodMutation(s)
    ensures SetArgCount(StatementText(s)) == Count(s.head, '?') + (if s.cond.Some? then 0 else Count(s.tail, '?'))
  {
    hide Count;
    if s.cond.None? {
      WhereAbsent(s, MutationEnds(), ["RETURNING"]);
      NoneTexts(s, "");
      CountConcat(s.head, s.tail, '?');
    } else {
      var c := s.cond.value;
      SomeText(s, c);
      OpensOn();
      WhereUpper();
      StartsLiteral(" WHERE ", c + s.tail);
      GoodParts(s, MutationEnds(), ["RETURNING"]);
      IndexAt(s.head, " WHERE " + (c + s.tail), " WHERE ", "WHERE");
      assert StatementText(s)[..|s.head|] == s.head;
    }
  }

  lemma UpdateArgsAre(config: Config, style: Style, s: Statement, v: Value, args: seq<Value>)
    requires MutationReady(config, style, s, args)
    requires style == Question && s.cond.None? ==> Count(s.tail, '?') == 0
    ensures UpdateArgs(style, StatementText(s), [v], args).Ok?
    ensures ArgsExtended(style, args, UpdateArgs(style, StatementText(s), [v], args).value, [v], Count(s.head, '?'))
  {
    SetArgCountIs(s);
    StatementMarks(s);
    hide Count, StatementText, SetArgCount, GoodStatement, Parse, Resolve;
  }

  /** UPDATE on the rows of its table: every row of another tenant is unchanged, and weaving the slice, as the original
      leaves it, back among those rows gives the table the rewritten statement leaves. The assignments are whatever the
      head with its arguments says; `assign` may read and write any column. */
  lemma UpdateOnRows(config: Config, style: Style, s: Statement, v: Value, args: seq<Value>,
                     rows: seq<Row>, qual: string, sense: AtomSense, assign: seq<Piece> -> Row -> Row)
    requires MutationReady(config, style, s, args) && v != Null
    requires style == Question && s.cond.None? ==> Count(s.tail, '?') == 0
    ensures UpdateArgs(style, StatementText(s), [v], args).Ok?
    ensures var s' := WithFilter(s, TenantEquation(config, style, s));
            var args' := UpdateArgs(style, StatementText(s), [v], args).value;
            var p, p' := PartsOf(style, s, args), PartsOf(style, s', args');
            && InjectUpdate(config, style, StatementText(s), v, args) == Ok((StatementText(s'), args'))
            && p'.head == p.head && p'.tail == p.tail
            && Update(rows, p'.cond, qual, sense, assign(p'.head)) ==
               Weave(rows, Update(OwnedRows(rows, config.tenantColumn, v), p.cond, qual, sense, assign(p.head)),
                     config.tenantColumn, v)
            && (forall i :: 0 <= i < |rows| && !Owned(rows[i], config.tenantColumn, v) ==>
                  Update(rows, p'.cond, qual, sense, assign(p'.head))[i] == rows[i])
            && TouchedRows(rows, p'.cond, qual, sense) ==
               TouchedRows(OwnedRows(rows, config.tenantColumn, v), p.cond, qual, sense)
  {
    UpdateArgsAre(config, style, s, v, args);
    hide PartsOf, TenantEquation, Holds, Owned, GoodStatement, MutationReady, ArgsExtended, MutationText, StatementText,
         WithFilter, Narrowed, TouchedRows, Update, Weave, OwnedRows, Count, UpdateArgs;
    var args' := UpdateArgs(style, StatementText(s), [v], args).value;
    assert GoodMutation(s) by { ReadyIsGood(config, style, s, args); }
    MutationTextIs(config, style, s);
    MutationParts(config, style, s, v, args, args');
    MutationNarrows(config, style, s, v, args, args', rows, qual, sense);
    var p, p' := PartsOf(style, s, args), PartsOf(style, WithFilter(s, TenantEquation(config, style, s)), args');
    UpdateOwned(rows, p.cond, p'.cond, qual, sense, config.tenantColumn, v, assign(p.head));
    TouchedOwned(rows, p.cond, p'.cond, qual, sense, config.tenantColumn, v);
  }
}
