/** Exactly when the injected condition leaves the bindings of a statement alone. */
module BindingExactness {
  import opened Text
  import opened Decimal
  import opened Placeholders
  import opened FromClause
  import opened Rewriter
  import opened Bindings
  import opened Relations
  import opened SelectMeaning
  import opened MutationMeaning

  /** The statement with the filter in it means, bindings included, the original with `pieces` conjoined. */
  ghost predicate Preserved(style: Style, s: Statement, filter: string, pieces: seq<Piece>, args: seq<Value>,
                            args': seq<Value>) {
    var p, p' := PartsOf(style, s, args), PartsOf(style, WithFilter(s, filter), args');
    && p'.head == p.head && p'.tail == p.tail
    && p'.cond == Some(ConjoinedPieces(pieces, TrimmedCondition(style, s, args)))
  }

  /** Different arguments for the next mark show in the text. */
  lemma {:induction false} MarksDiffer(s: string, args: seq<Value>, args': seq<Value>, k: nat)
    requires Count(s, '?') > 0 && k < |args| && k < |args'| && args[k] != args'[k]
    ensures ResolveMarks(s, args, k) != ResolveMarks(s, args', k)
  {
    var r, r' := ResolveMarks(s, args, k), ResolveMarks(s, args', k);
    if s[0] == '?' {
      assert r[0] != r'[0];
    } else {
      MarksDiffer(s[1..], args, args', k);
      assert r[1..] == ResolveMarks(s[1..], args, k) && r'[1..] == ResolveMarks(s[1..], args', k);
    }
  }

  /** Prepending `n` tenant arguments under `?`, as SELECT and DELETE do, is right exactly when no mark stands before
      the insertion point. */
  lemma PrependExact(s: Statement, filter: string, pieces: seq<Piece>, args: seq<Value>, v: Value, n: nat)
    requires s.tail == "" || s.tail[0] == ' '
    requires |args| == Count(StatementText(s), '?') && v !in args && n > 0
    requires Count(filter, '?') == n && Resolve(Question, filter, Repeat(v, n) + args, 0) == pieces
    ensures Preserved(Question, s, filter, pieces, args, Repeat(v, n) + args) <==> Count(s.head, '?') == 0
  {
    hide StatementText, TrimmedCondition, WithFilter, ConjoinedPieces, ResolveMarks, Scan, Trim;
    var args' := Repeat(v, n) + args;
    StatementMarks(s);
    if Count(s.head, '?') == 0 {
      assert args[..0] == [] && args[0..] == args;
      assert MarkCount(Question, |Repeat(v, n)|) == n;
      BindingsPreserved(Question, s, filter, pieces, args, args', Repeat(v, n));
      TrimmedUnfold(Question, s, args);
    } else {
      assert args[0] in args;
      MarksDiffer(s.head, args, args', 0);
      HeadOfFilter(Question, s, filter, args');
    }
  }

  lemma HeadOfFilter(style: Style, s: Statement, filter: string, args: seq<Value>)
    ensures PartsOf(style, WithFilter(s, filter), args).head == Resolve(style, s.head, args, 0)
    ensures PartsOf(style, WithFilter(s, filter), args).cond ==
            Some(Resolve(style, Conjoined(filter, s.cond), args, Count(s.head, '?')))
  {
    hide Resolve, Count, Trim;
  }

  /** DELETE under `?` keeps its bindings exactly when no mark stands before its WHERE clause. */
  lemma DeleteMarksExact(config: Config, s: Statement, v: Value, args: seq<Value>)
    requires GoodMutation(s) && GoodColumn(config.tenantColumn)
    requires |args| == Count(StatementText(s), '?') && v !in args
    ensures InjectDelete(config, Question, StatementText(s), v, args) ==
            Ok((StatementText(WithFilter(s, TenantEquation(config, Question, s))), [v] + args))
    ensures Preserved(Question, s, TenantEquation(config, Question, s), EqualsPieces(config.tenantColumn, v), args,
                      [v] + args)
            <==> Count(s.head, '?') == 0
  {
    hide StatementText, ResolveMarks, Scan, Trim, Preserved, TenantEquation, MutationText, WithFilter, GoodStatement,
         Count;
    MutationTextIs(config, Question, s);
    GoodTail(s);
    EquationUnfold(config, Question, s);
    ResolveEquals(Question, config.tenantColumn, ExistingPlaceholders(Question, StatementText(s)) + 1, [v] + args, 0,
                  v);
    assert [v] == Repeat(v, 1);
    PrependExact(s, TenantEquation(config, Question, s), EqualsPieces(config.tenantColumn, v), args, v, 1);
  }

  lemma GoodTail(s: Statement)
    requires GoodMutation(s)
    ensures s.tail == "" || s.tail[0] == ' '
  {
  }

  /** UPDATE under `?` keeps its bindings exactly when it has a WHERE clause or no mark follows its head. */
  lemma UpdateMarksExact(config: Config, s: Statement, v: Value, args: seq<Value>)
    requires GoodMutation(s) && GoodColumn(config.tenantColumn)
    requires |args| == Count(StatementText(s), '?') && v !in args
    ensures UpdateArgs(Question, StatementText(s), [v], args).Ok?
    ensures var args' := UpdateArgs(Question, StatementText(s), [v], args).value;
            && InjectUpdate(config, Question, StatementText(s), v, args) ==
               Ok((StatementText(WithFilter(s, TenantEquation(config, Question, s))), args'))
            && (Preserved(Question, s, TenantEquation(config, Question, s), EqualsPieces(config.tenantColumn, v), args,
                          args')
                <==> s.cond.Some? || Count(s.tail, '?') == 0)
  {
    hide StatementText, ResolveMarks, Scan, Trim, Preserved, TenantEquation, MutationText, WithFilter, GoodStatement,
         Count, SetArgCount;
    MutationTextIs(config, Question, s);
    GoodTail(s);
    SetArgCountIs(s);
    StatementMarks(s);
    EquationUnfold(config, Question, s);
    var n := Count(s.head, '?');
    var args' := UpdateArgs(Question, StatementText(s), [v], args).value;
    var filter := TenantEquation(config, Question, s);
    if s.cond.Some? || Count(s.tail, '?') == 0 {
      ResolveEquals(Question, config.tenantColumn, ExistingPlaceholders(Question, StatementText(s)) + 1, args', n, v);
      assert MarkCount(Question, |[v]|) == 1;
      BindingsPreserved(Question, s, filter, EqualsPieces(config.tenantColumn, v), args, args', [v]);
      TrimmedUnfold(Question, s, args);
      PreservedIs(Question, s, filter, EqualsPieces(config.tenantColumn, v), args, args');
    } else {
      assert args'[n] == args[n] && args[n] in args;
      ResolveEquals(Question, config.tenantColumn, ExistingPlaceholders(Question, StatementText(s)) + 1, args', n,
                    args[n]);
      HeadOfFilter(Question, s, filter, args');
      PreservedIs(Question, s, filter, EqualsPieces(config.tenantColumn, v), args, args');
      NoCondition(s, filter);
      TrimmedUnfold(Question, s, args);
      assert EqualsPieces(config.tenantColumn, v)[|config.tenantColumn| + 3] == Bound(v);
      assert EqualsPieces(config.tenantColumn, args[n])[|config.tenantColumn| + 3] == Bound(args[n]);
    }
  }

  lemma PreservedIs(style: Style, s: Statement, filter: string, pieces: seq<Piece>, args: seq<Value>, args': seq<Value>)
    ensures Preserved(style, s, filter, pieces, args, args') <==>
            var p, p' := PartsOf(style, s, args), PartsOf(style, WithFilter(s, filter), args');
            && p'.head == p.head && p'.tail == p.tail
            && p'.cond == Some(ConjoinedPieces(pieces, TrimmedCondition(style, s, args)))
  {
  }

  /** SELECT under `?` keeps its bindings exactly when no mark stands in its column list or FROM clause. */
  lemma SelectMarksExact(config: Config, q: SelectQuery, v: Value, args: seq<Value>)
    requires GoodSelect(q) && GoodColumn(config.tenantColumn)
    requires |args| == Count(StatementText(StatementOf(q)), '?') && v !in args
    requires var own := TenantTablesOf(config, [q.from.main] + Kept(q.from.joins)); own != [] && PlainTables(own)
    ensures var own := TenantTablesOf(config, [q.from.main] + Kept(q.from.joins));
            var s, filter, args' := StatementOf(q), TenantFilter(config, Question, q), Repeat(v, |own|) + args;
            && InjectSelect(config, Question, StatementText(s), v, args) ==
               Ok((StatementText(WithFilter(s, filter)), args'))
            && (Preserved(Question, s, filter, FilterPieces(config.tenantColumn, own, v), args, args')
                <==> Count(s.head, '?') == 0)
  {
    hide StatementText, StatementOf, ResolveMarks, Scan, Trim, Preserved, WithFilter, Count, Kept, TenantTablesOf,
         GoodSelect, InjectSelect, FilterText, FilterPieces, ShapedSelect;
    var own := TenantTablesOf(config, [q.from.main] + Kept(q.from.joins));
    var s := StatementOf(q);
    SelectText(config, Question, q, v, args);
    WithTenantStatement(q, TenantFilter(config, Question, q));
    GoodIsShaped(q);
    TailStarts(q);
    StatementTail(q);
    var args' := Repeat(v, |own|) + args;
    ResolveFilter(Question, config.tenantColumn, own, ExistingPlaceholders(Question, StatementText(s)) + 1, args', 0,
                  v);
    PrependExact(s, TenantFilter(config, Question, q), FilterPieces(config.tenantColumn, own, v), args, v, |own|);
  }

  /** Under a numbered style the injected placeholder is bound to the tenant exactly when there are as many arguments as
      the rewriter counts placeholders: under `$N` the highest number, under `:N` none. */
  lemma NumberedEquationExact(config: Config, style: Style, s: Statement, v: Value, args: seq<Value>)
    requires style != Question && GoodColumn(config.tenantColumn) && |args| < MAX_INT && v !in args
    requires ExistingPlaceholders(style, StatementText(s)) < MAX_INT
    ensures Resolve(style, TenantEquation(config, style, s), args + [v], 0) == EqualsPieces(config.tenantColumn, v)
            <==> |args| == ExistingPlaceholders(style, StatementText(s))
  {
    hide StatementText, Scan, MaxSlot, ExistingPlaceholders, Resolve;
    EquationExact(style, config.tenantColumn, ExistingPlaceholders(style, StatementText(s)) + 1, v, args, 1);
    assert [v] == Repeat(v, 1);
  }

  /** One equation with placeholder number `m`, when `n` tenant arguments follow the old ones. */
  lemma EquationExact(style: Style, column: string, m: nat, v: Value, args: seq<Value>, n: nat)
    requires style != Question && Plain(column) && 1 <= m <= MAX_INT && |args| + n <= MAX_INT && v !in args
    ensures var r := Resolve(style, Equals(style, column, m), args + Repeat(v, n), 0);
            && |r| == |column| + 4
            && (r == EqualsPieces(column, v) <==> r[|column| + 3] == Bound(v))
            && (r[|column| + 3] == Bound(v) <==> |args| < m <= |args| + n)
  {
    var args' := args + Repeat(v, n);
    EquationPieces(style, column, m, args');
    if m <= |args| {
      assert args'[m - 1] == args[m - 1] && args[m - 1] in args;
    }
  }

  lemma EquationPieces(style: Style, column: string, m: nat, args: seq<Value>)
    requires style != Question && Plain(column) && 1 <= m <= MAX_INT
    ensures Resolve(style, Equals(style, column, m), args, 0) ==
            Lits(column + " = ") + [if m <= |args| then Bound(args[m - 1]) else Dangling(m)]
  {
    hide *;
    var left, mark := column + " = ", Placeholder(style, m);
    EqualsIs(style, column, m);
    ScanSlot(style, m);
    ResolvePlain(style, left, args, 0);
    ResolveConcat(style, left, mark, args, 0);
    SlotPieces(style, mark, m, args, Count(left, '?'));
  }

  lemma EqualsIs(style: Style, column: string, m: nat)
    requires Plain(column)
    ensures var left, mark := column + " = ", Placeholder(style, m);
            Equals(style, column, m) == left + mark && Plain(left) && SafeCut(left, mark)
  {
    hide Placeholder;
  }

  lemma SlotPieces(style: Style, mark: string, m: nat, args: seq<Value>, k: nat)
    requires style != Question && 1 <= m && Scan(style, mark) == [Slot(m)]
    ensures Resolve(style, mark, args, k) == [if m <= |args| then Bound(args[m - 1]) else Dangling(m)]
  {
    hide Scan;
    var tokens := [Slot(m)];
    assert tokens[1..] == [];
  }

  /** A whole filter: right exactly when the number of every equation is that of one of the `n` new arguments. */
  lemma {:induction false} FilterExact(style: Style, column: string, tables: seq<TableRef>, first: nat,
                                       args: seq<Value>, n: nat, v: Value)
    requires style != Question && Plain(column) && PlainTables(tables) && v !in args
    requires 1 <= first && first + |tables| <= MAX_INT && |args| + n <= MAX_INT
    ensures var r, pieces := Resolve(style, FilterText(style, column, tables, first), args + Repeat(v, n), 0),
                             FilterPieces(column, tables, v);
            && |r| == |pieces|
            && (r == pieces <==> tables == [] || |args| < first <= first + |tables| - 1 <= |args| + n)
  {
    hide Resolve, Plain, Equals, EqualsPieces, FilterText, FilterPieces, Count;
    if tables == [] {
      NoFilter(style, column, first, v, args + Repeat(v, n));
    } else {
      var last := |tables| - 1;
      var t, args' := tables[last], args + Repeat(v, n);
      assert t in tables && Plain(Qualifier(t));
      FilterExact(style, column, tables[..last], first, args, n, v);
      QualifiedPlain(Qualifier(t), column);
      EquationExact(style, Qualifier(t) + "." + column, first + last, v, args, n);
      FilterCons(style, column, tables, first, args', v);
      hide *;
      var name := Qualifier(t) + "." + column;
      EqualsPiecesLength(name, v);
      PiecewiseEqual(Resolve(style, FilterText(style, column, tables[..last], first), args', 0),
                     FilterPieces(column, tables[..last], v), Link(last),
                     Resolve(style, Equals(style, name, first + last), args', 0), EqualsPieces(name, v));
    }
  }

  lemma EqualsPiecesLength(name: string, v: Value)
    ensures |EqualsPieces(name, v)| == |name| + 4
  {
  }

  lemma NoFilter(style: Style, column: string, first: nat, v: Value, args: seq<Value>)
    ensures Resolve(style, FilterText(style, column, [], first), args, 0) == [] == FilterPieces(column, [], v)
  {
    PlainLinks();
    ResolvePlain(style, "", args, 0);
  }

  lemma QualifiedPlain(qual: string, column: string)
    requires Plain(qual) && Plain(column)
    ensures Plain(qual + "." + column)
  {
  }

  lemma FilterCons(style: Style, column: string, tables: seq<TableRef>, first: nat, args: seq<Value>, v: Value)
    requires style != Question && tables != []
    ensures var n := |tables| - 1;
            var name := Qualifier(tables[n]) + "." + column;
            && Resolve(style, FilterText(style, column, tables, first), args, 0) ==
               Resolve(style, FilterText(style, column, tables[..n], first), args, 0) + Link(n) +
               Resolve(style, Equals(style, name, first + n), args, 0)
            && FilterPieces(column, tables, v) == FilterPieces(column, tables[..n], v) + Link(n) + EqualsPieces(name, v)
  {
    hide Scan, Equals, EqualsPieces, Count, Lits, ResolveMarks;
    var n := |tables| - 1;
    var init := FilterText(style, column, tables[..n], first);
    LinkFilter(style, init, if n > 0 then " AND " else "",
               Equals(style, Qualifier(tables[n]) + "." + column, first + n), args, 0);
  }

  lemma PiecewiseEqual(a: seq<Piece>, a': seq<Piece>, link: seq<Piece>, b: seq<Piece>, b': seq<Piece>)
    requires |a| == |a'| && |b| == |b'|
    ensures a + link + b == a' + link + b' <==> a == a' && b == b'
  {
    var l, r := a + link + b, a' + link + b';
    assert l[..|a|] == a && r[..|a|] == a' && l[|a + link|..] == b && r[|a + link|..] == b';
  }

  /** Under a numbered style the tenant filter of a SELECT says what it should, for any number of tables, exactly when
      there are as many arguments as the rewriter counts placeholders. */
  lemma NumberedFilterExact(config: Config, style: Style, q: SelectQuery, v: Value, args: seq<Value>)
    requires style != Question && GoodColumn(config.tenantColumn) && v !in args
    requires var own := TenantTablesOf(config, [q.from.main] + Kept(q.from.joins));
             && own != [] && PlainTables(own) && |args| + |own| <= MAX_INT
             && ExistingPlaceholders(style, StatementText(StatementOf(q))) + |own| < MAX_INT
    ensures var own := TenantTablesOf(config, [q.from.main] + Kept(q.from.joins));
            Resolve(style, TenantFilter(config, style, q), args + Repeat(v, |own|), 0) ==
            FilterPieces(config.tenantColumn, own, v)
            <==> |args| == ExistingPlaceholders(style, StatementText(StatementOf(q)))
  {
    hide StatementText, StatementOf, ExistingPlaceholders, Kept, TenantTablesOf, FilterText, FilterPieces, Resolve;
    var own := TenantTablesOf(config, [q.from.main] + Kept(q.from.joins));
    var m := ExistingPlaceholders(style, StatementText(StatementOf(q)));
    FilterExact(style, config.tenantColumn, own, m + 1, args, |own|, v);
  }
}
