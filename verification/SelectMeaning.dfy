/** The rows that a rewritten SELECT keeps from the whole database are those the original keeps from the tenant's
    slice. */
module SelectMeaning {
  import opened Text
  import opened Decimal
  import opened Placeholders
  import opened Keywords
  import opened FromClause
  import opened LockingClauses
  import opened Rewriter
  import opened Bindings
  import opened Conditions
  import opened Relations

  // ----- The injected condition as lexemes -----

  function AtomsOf(column: string, tables: seq<TableRef>, v: Value): (r: seq<seq<Lexeme>>)
    ensures |r| == |tables|
    ensures forall i :: 0 <= i < |tables| ==> r[i] == TenantAtom(Qualifier(tables[i]) + "." + column, v)
  {
    seq(|tables|, i requires 0 <= i < |tables| => TenantAtom(Qualifier(tables[i]) + "." + column, v))
  }

  ghost predicate NotOperator(name: string) {
    Upper(name) != "AND" && Upper(name) != "OR" && Upper(name) != "NOT"
  }

  lemma LexEquals(name: string, v: Value)
    requires name != "" && GoodName(name) && NotOperator(name)
    ensures Lex(EqualsPieces(name, v)) == TenantAtom(name, v)
  {
    var a, b, c := Lits(name), Lits(" = "), [Bound(v)];
    assert EqualsPieces(name, v) == a + b + c;
    assert b[0] == Lit(' ') && b[1] == Lit('=') && b[2] == Lit(' ');
    LexConcat(a, b);
    LexConcat(a + b, c);
    LexWord(a);
    LexWord(c);
    LexEqualsSign();
    ClassifyName(name);
  }

  lemma LexEqualsSign()
    ensures Lex(Lits(" = ")) == [Word([Lit('=')])]
  {
    var b := Lits(" = ");
    LexConcat([Lit(' ')], [Lit('='), Lit(' ')]);
    LexConcat([Lit('=')], [Lit(' ')]);
    LexBlanks([Lit(' ')]);
    LexWord([Lit('=')]);
    assert b == [Lit(' ')] + [Lit('='), Lit(' ')];
    assert [Lit('='), Lit(' ')] == [Lit('=')] + [Lit(' ')];
  }

  lemma ClassifyName(name: string)
    requires NotOperator(name)
    ensures Classify(Lits(name)) == Word(Lits(name))
  {
    assert Spells(Lits(name), "AND") ==> Upper(name) == "AND";
    assert Spells(Lits(name), "OR") ==> Upper(name) == "OR";
    assert Spells(Lits(name), "NOT") ==> Upper(name) == "NOT";
  }

  lemma LexAnd()
    ensures Lex(Lits(" AND ")) == [AndWord] && Lex(Lits(" AND (")) == [AndWord, LParen] && Lex(Lits(")")) == [RParen]
  {
    LexAndWord();
    assert [Lit('(')][1..] == [] && Lits(")") == [Lit(')')] && Lits(")")[1..] == [];
    assert Lex([]) == [];
    assert Lits(" AND (") == Lits(" AND ") + [Lit('(')];
    LexConcat(Lits(" AND "), [Lit('(')]);
  }

  lemma LexAndWord()
    ensures Lex(Lits(" AND ")) == [AndWord]
  {
    var blank, and := [Lit(' ')], [Lit('A'), Lit('N'), Lit('D')];
    LexBlanks(blank);
    LexWord(and);
    assert Lits(" AND ") == blank + (and + blank);
    assert Classify(and) == AndWord;
    hide Lex, Lits, Classify;
    LexConcat(and, blank);
    LexConcat(blank, and + blank);
  }

  lemma {:induction false} AndedAppend(atoms: seq<seq<Lexeme>>, a: seq<Lexeme>)
    ensures AndedLexemes(atoms + [a]) == AndedLexemes(atoms) + (if atoms == [] then [] else [AndWord]) + a
  {
    if atoms == [] {
      assert atoms + [a] == [a];
    } else {
      assert (atoms + [a])[1..] == atoms[1..] + [a];
      AndedAppend(atoms[1..], a);
    }
  }

  lemma {:induction false} LexFilter(column: string, tables: seq<TableRef>, v: Value)
    requires GoodColumn(column) && forall t :: t in tables ==> GoodName(Qualifier(t))
    ensures Lex(FilterPieces(column, tables, v)) == AndedLexemes(AtomsOf(column, tables, v))
  {
    if tables != [] {
      var n := |tables| - 1;
      assert tables[n] in tables && |AtomsOf(column, tables[..n], v)| == n;
      hide *;
      LexFilter(column, tables[..n], v);
      NameAtom(column, tables[n], v);
      FilterUnfold(column, tables, v);
      AtomsSnoc(column, tables, v);
      AndedAppend(AtomsOf(column, tables[..n], v), AtomOf(column, tables[n], v));
      LinkLex(FilterPieces(column, tables[..n], v), Link(n), NamePieces(column, tables[n], v), n);
    } else {
      assert AtomsOf(column, tables, v) == [];
    }
  }

  function AtomOf(column: string, t: TableRef, v: Value): seq<Lexeme> {
    TenantAtom(Qualifier(t) + "." + column, v)
  }

  function NamePieces(column: string, t: TableRef, v: Value): seq<Piece> {
    EqualsPieces(Qualifier(t) + "." + column, v)
  }

  function Link(n: nat): seq<Piece> {
    Lits(if n > 0 then " AND " else "")
  }

  lemma NameAtom(column: string, t: TableRef, v: Value)
    requires GoodColumn(column) && GoodName(Qualifier(t))
    ensures Lex(NamePieces(column, t, v)) == AtomOf(column, t, v)
  {
    hide GoodName, GoodColumn, NotOperator, Lex, EqualsPieces, TenantAtom;
    QualifiedName(Qualifier(t), column);
    LexEquals(Qualifier(t) + "." + column, v);
  }

  lemma FilterUnfold(column: string, tables: seq<TableRef>, v: Value)
    requires tables != []
    ensures var n := |tables| - 1;
            && FilterPieces(column, tables, v) == FilterPieces(column, tables[..n], v) + Link(n) +
               NamePieces(column, tables[n], v)
            && (n == 0 ==> FilterPieces(column, tables[..n], v) == [])
  {
    hide EqualsPieces, Lits;
  }

  lemma AtomsSnoc(column: string, tables: seq<TableRef>, v: Value)
    requires tables != []
    ensures var n := |tables| - 1;
            AtomsOf(column, tables, v) == AtomsOf(column, tables[..n], v) + [AtomOf(column, tables[n], v)]
  {
    hide TenantAtom;
  }

  lemma LinkLex(init: seq<Piece>, link: seq<Piece>, eq: seq<Piece>, n: nat)
    requires link == Link(n) && (n == 0 ==> init == [])
    ensures Lex(init + link + eq) == Lex(init) + (if n > 0 then [AndWord] else []) + Lex(eq)
  {
    LexAndWord();
    assert Lex([]) == [];
    hide Lex;
    if n > 0 {
      assert link[0] == Lit(' ') && link[|link| - 1] == Lit(' ');
      LexConcat(init, link);
      LexConcat(init + link, eq);
    } else {
      assert init + link + eq == eq;
    }
  }

  lemma QualifiedName(qual: string, column: string)
    requires GoodName(qual) && GoodColumn(column)
    ensures GoodName(qual + "." + column) && NotOperator(qual + "." + column)
  {
    var name := qual + "." + column;
    assert Upper(name)[|qual|] == '.';
  }

  // ----- When the conjoined condition holds -----

  /** `filter AND ( c )` holds exactly when every equation of the filter and `c` hold, whatever operators `c` has. */
  lemma ConjunctionHolds(filter: seq<Piece>, atoms: seq<seq<Lexeme>>, cond: Option<seq<Piece>>,
                         inner: Option<seq<Piece>>, env: Env, sense: AtomSense)
    requires atoms != [] && (forall a :: a in atoms ==> Equation(a)) && Lex(filter) == AndedLexemes(atoms)
    requires cond.Some? <==> inner.Some?
    requires cond.Some? ==> Parse(cond.value).Some? && Lex(inner.value) == Lex(cond.value)
    ensures Holds(Some(ConjoinedPieces(filter, inner)), env, sense) <==>
            (forall a :: a in atoms ==> AtomTruth(env, a, sense) == True) && Holds(cond, env, sense)
  {
    var atom := (words: seq<Lexeme>) => AtomTruth(env, words, sense);
    if cond.None? {
      ParseEquations(atoms);
      assert ParseOr(Lex(filter)) == Some((Anded(atoms), []));
      EvalAnded(atoms, atom);
    } else {
      var ls := Lex(cond.value);
      ParseConjunction(atoms, ls);
      LexConjoined(filter, inner.value);
      var c := Parse(cond.value).value;
      assert Parse(ConjoinedPieces(filter, inner)) == Some(AndedWith(atoms, c));
      EvalAndedWith(atoms, c, atom);
    }
  }

  lemma LexConjoined(filter: seq<Piece>, c: seq<Piece>)
    ensures Lex(ConjoinedPieces(filter, Some(c))) == Lex(filter) + [AndWord, LParen] + Lex(c) + [RParen]
  {
    hide Lex;
    var open, close := Lits(" AND ("), Lits(")");
    LexAnd();
    assert open[0] == Lit(' ') && open[|open| - 1] == Lit('(') && close[0] == Lit(')');
    LexConcat(filter, open);
    LexConcat(filter + open, c);
    LexConcat(filter + open + c, close);
  }

  lemma AllLitsBlank(s: string)
    requires AllSpaces(s)
    ensures forall i :: 0 <= i < |s| ==> IsBlank(Lits(s)[i])
  {
  }

  /** Trimming does not change what a condition says. */
  lemma LexTrimmed(style: Style, c: string, args: seq<Value>, k: nat)
    ensures Lex(Resolve(style, Trim(c), args, k)) == Lex(Resolve(style, c, args, k))
  {
    hide Resolve, Lex, Trim;
    var l, r := ResolveTrimmed(style, c, args, k);
    AllLitsBlank(l);
    AllLitsBlank(r);
    LexPadded(Lits(l), Resolve(style, Trim(c), args, k), Lits(r));
  }

  // ----- SELECT queries -----

  datatype SelectQuery = SelectQuery(columns: string, from: Clause, cond: Option<string>, tail: string)

  function StatementOf(q: SelectQuery): Statement {
    Statement(q.columns + " FROM " + ClauseText(q.from), q.cond, q.tail)
  }

  function AllTables(q: SelectQuery): seq<TableRef> {
    [q.from.main] + Tables(q.from.joins)
  }

  /** The ON conditions with their arguments in place; `k` marks stand before the first join. */
  function OnPieces(style: Style, js: seq<JoinClause>, args: seq<Value>, k: nat): (r: seq<Option<seq<Piece>>>)
    ensures |r| == |js|
  {
    if js == [] then []
    else
      var k1 := k + Count(RefText(js[0].table, js[0].form), '?');
      [match js[0].on case None => None case Some(c) => Some(Resolve(style, c, args, k1))] +
      OnPieces(style, js[1..], args, k1 + Count(OnText(js[0].on), '?'))
  }

  function SelectOpeningWords(): seq<string> {
    ["ORDER", "GROUP", "LIMIT", "HAVING", "UNION", "EXCEPT", "INTERSECT", "FOR", "FOR"]
  }

  /** The tail is a locking clause and what may end the tables of a query. */
  ghost predicate LockedTail(tail: string, keyword: string, rest: string, more: string) {
    tail == " " + LockWords(keyword, rest) + more && Locking(keyword, rest) && EndsTables(more)
  }

  /** Without WHERE, the extraction stops at the tail: it opens with an end marker, or with a locking clause behind a
      FROM clause that such a clause does not disturb. */
  ghost predicate StopsTables(q: SelectQuery) {
    || q.tail == "" || StartsWithOneOf(q.tail, EndMarkers())
    || (LockSafe(q.from) && exists keyword, rest, more :: LockedTail(q.tail, keyword, rest, more))
  }

  /** A SELECT whose parts contain no word, standing alone, that opens a part after them. */
  ghost predicate ShapedSelect(q: SelectQuery) {
    && CleanOf(q.columns, Reserved()) && GoodClause(q.from) && Written(q.from)
    && CleanOf(StatementOf(q).head, SelectOpeningWords()) && Trimmed(StatementOf(q).head)
    && (q.tail == "" || StartsWithOneOf(q.tail, SelectEnds()))
    && match q.cond {
         case None => Absent(" WHERE ", Upper(q.tail))
         case Some(c) => CleanOf(c, SelectOpeningWords())
       }
  }

  ghost predicate GoodSelect(q: SelectQuery) {
    ShapedSelect(q) && (q.cond.Some? || StopsTables(q))
  }

  function SelectRest(k: nat): string
    requires k < 9
  {
    if k < 2 then " BY " else if k < 7 then " " else if k == 7 then " UPDATE" else " SHARE"
  }

  lemma SelectSpelled(k: nat)
    requires k < 9
    ensures SelectEnds()[k] == " " + SelectOpeningWords()[k] + SelectRest(k)
  {
  }

  lemma SelectEndWord(k: nat)
    requires k < 9
    ensures IsWord(SelectOpeningWords()[k]) && SelectRest(k) != "" && SelectRest(k)[0] == ' '
  {
  }

  lemma SelectOpener(k: nat)
    requires k < 9
    ensures Opens(SelectEnds()[k], SelectOpeningWords()[k])
  {
    assert |SelectEnds()| == |SelectOpeningWords()| == 9;
    hide Opens, SelectEnds, SelectOpeningWords, SelectRest, IsWord;
    SelectEndWord(k);
    SelectSpelled(k);
    OpensWith(SelectOpeningWords()[k], SelectRest(k));
  }

  lemma SelectOpeners()
    ensures OpensAll(SelectEnds(), SelectOpeningWords())
  {
    assert |SelectEnds()| == |SelectOpeningWords()| == 9;
    hide Opens, SelectEnds, SelectOpeningWords;
    forall k | 0 <= k < |SelectEnds()| ensures Opens(SelectEnds()[k], SelectOpeningWords()[k]) {
      SelectOpener(k);
    }
  }

  lemma NoWhereInHead(q: SelectQuery)
    requires CleanOf(q.columns, Reserved()) && GoodClause(q.from)
    ensures Clean(StatementOf(q).head, "WHERE")
  {
    WhereWord();
    hide Clean, ClauseText, Reserved, JoinOpeningWords;
    ClauseTextClean(q.from, "WHERE");
    CleanAfterWord(q.columns, "FROM", ClauseText(q.from), "WHERE");
    assert q.columns + (" " + "FROM" + " " + ClauseText(q.from)) == StatementOf(q).head;
  }

  lemma ShapedStatement(q: SelectQuery)
    requires ShapedSelect(q)
    ensures GoodStatement(StatementOf(q), SelectEnds(), SelectOpeningWords())
  {
    SelectOpeners();
    EndsNonEmpty();
    NoWhereInHead(q);
    hide Clean, SelectEnds, SelectOpeningWords, Reserved, ClauseText, OpensAll;
  }

  lemma TailStarts(q: SelectQuery)
    requires ShapedSelect(q)
    ensures q.tail == "" || q.tail[0] == ' '
  {
    hide Clean, CleanOf, ClauseText, Reserved, SelectEnds;
  }

  lemma ShapedParts(q: SelectQuery)
    requires ShapedSelect(q)
    ensures Clean(q.columns, "FROM") && Clean(q.columns, "WHERE") && GoodClause(q.from) && Written(q.from)
  {
    WhereWord();
    hide Clean, ClauseText, GoodClause;
  }

  lemma WhereEndsTables(q: SelectQuery)
    requires q.cond.Some?
    ensures EndsTables(WhereText(q.cond) + q.tail)
  {
    var rest := q.cond.value + q.tail;
    assert WhereText(q.cond) + q.tail == " WHERE " + rest;
    WhereUpper();
    StartsLiteral(" WHERE ", rest);
    assert MatchAt(Upper(" WHERE " + rest), 0, [" WHERE "][0]);
  }

  lemma SelectTextSplits(q: SelectQuery)
    ensures StatementText(StatementOf(q)) == q.columns + " FROM " + ClauseText(q.from) + (WhereText(q.cond) + q.tail)
    ensures q.cond.None? ==> WhereText(q.cond) + q.tail == q.tail
  {
    hide ClauseText;
  }

  lemma LockedText(q: SelectQuery, keyword: string, rest: string, more: string)
    requires q.cond.None? && LockedTail(q.tail, keyword, rest, more)
    ensures StatementText(StatementOf(q)) ==
            q.columns + " FROM " + (ClauseText(q.from) + (" " + LockWords(keyword, rest))) + more
    ensures Locking(keyword, rest) && EndsTables(more)
  {
    hide *;
    SelectTextSplits(q);
    LockedTailIs(q.tail, keyword, rest, more);
    Reassociate(q.columns + " FROM ", ClauseText(q.from), " " + LockWords(keyword, rest), more);
  }

  lemma LockedTailIs(tail: string, keyword: string, rest: string, more: string)
    requires LockedTail(tail, keyword, rest, more)
    ensures tail == " " + LockWords(keyword, rest) + more && Locking(keyword, rest) && EndsTables(more)
  {
    hide LockWords, Locking, EndsTables;
  }

  lemma Reassociate(a: string, b: string, c: string, d: string)
    ensures a + b + (c + d) == a + (b + c) + d
  {
  }

  /** The rewriter finds the main table and the kept joins. */
  lemma SelectTables(q: SelectQuery)
    requires GoodSelect(q)
    ensures ExtractTables(StatementText(StatementOf(q))) == Ok([q.from.main] + Kept(q.from.joins))
  {
    hide ExtractTables, ClauseText, Clean, EndsTables, Kept, LockedTail, LockSafe, ShapedSelect, Locking, StatementText;
    ShapedParts(q);
    SelectTextSplits(q);
    if q.cond.Some? {
      WhereEndsTables(q);
      FromRoundTrip(q.columns, q.from, WhereText(q.cond) + q.tail);
    } else if q.tail == "" || StartsWithOneOf(q.tail, EndMarkers()) {
      assert EndsTables(q.tail) by { MarkerEndsTables(q.tail); }
      FromRoundTrip(q.columns, q.from, q.tail);
    } else {
      var keyword, rest, more :| LockedTail(q.tail, keyword, rest, more);
      LockedText(q, keyword, rest, more);
      LockedKept(q.columns, q.from, keyword, rest, more);
    }
  }

  lemma MarkerEndsTables(tail: string)
    requires tail == "" || StartsWithOneOf(tail, EndMarkers())
    ensures EndsTables(tail)
  {
    hide StartsWithOneOf;
  }

  /** The query with the tenant condition in it. */
  function WithTenant(q: SelectQuery, filter: string): SelectQuery {
    q.(cond := Some(Conjoined(filter, q.cond)))
  }

  function TenantFilter(config: Config, style: Style, q: SelectQuery): string {
    FilterText(style, config.tenantColumn, TenantTablesOf(config, [q.from.main] + Kept(q.from.joins)),
               ExistingPlaceholders(style, StatementText(StatementOf(q))) + 1)
  }

  lemma GoodIsShaped(q: SelectQuery)
    requires GoodSelect(q)
    ensures ShapedSelect(q)
  {
    hide ShapedSelect, StopsTables;
  }

  /** On a printed query, the rewriter conjoins the tenant filter with the condition and touches nothing else. */
  lemma SelectText(config: Config, style: Style, q: SelectQuery, v: Value, args: seq<Value>)
    requires GoodSelect(q)
    ensures var tables := TenantTablesOf(config, [q.from.main] + Kept(q.from.joins));
            var tenants := Repeat(v, |tables|);
            InjectSelect(config, style, StatementText(StatementOf(q)), v, args) ==
            if tables == [] then Ok((StatementText(StatementOf(q)), args))
            else Ok((StatementText(StatementOf(WithTenant(q, TenantFilter(config, style, q)))),
                     if style == Question then tenants + args else args + tenants))
  {
    hide *;
    EndsNonEmpty();
    SelectTables(q);
    assert ShapedSelect(q) by { GoodIsShaped(q); }
    ShapedStatement(q);
    var filter := TenantFilter(config, style, q);
    InjectWhereStatement(StatementOf(q), filter, SelectEnds(), SelectOpeningWords(), true);
    WithTenantStatement(q, filter);
    InjectSelectUnfold(config, style, q, v, args);
  }

  lemma WithTenantStatement(q: SelectQuery, filter: string)
    ensures StatementOf(WithTenant(q, filter)) == WithFilter(StatementOf(q), filter)
  {
    hide Trim, ClauseText;
  }

  lemma InjectSelectUnfold(config: Config, style: Style, q: SelectQuery, v: Value, args: seq<Value>)
    requires "" !in SelectEnds()
    requires ExtractTables(StatementText(StatementOf(q))) == Ok([q.from.main] + Kept(q.from.joins))
    ensures var text := StatementText(StatementOf(q));
            var tables := TenantTablesOf(config, [q.from.main] + Kept(q.from.joins));
            var tenants := Repeat(v, |tables|);
            InjectSelect(config, style, text, v, args) ==
            if tables == [] then Ok((text, args))
            else Ok((InjectWhere(text, TenantFilter(config, style, q), SelectEnds(), true),
                     if style == Question then tenants + args else args + tenants))
  {
    hide ExtractTables, ClauseText, InjectWhere, SelectEnds, FilterText, ExistingPlaceholders, TenantTablesOf, Kept;
  }

  // ----- A locking clause behind a reference without alias -----

  lemma InjectSelectTables(config: Config, style: Style, text: string, v: Value, args: seq<Value>, all: seq<TableRef>)
    requires "" !in SelectEnds() && ExtractTables(text) == Ok(all)
    ensures var tables := TenantTablesOf(config, all);
            var tenants := Repeat(v, |tables|);
            InjectSelect(config, style, text, v, args) ==
            if tables == [] then Ok((text, args))
            else Ok((InjectWhere(text,
                                 FilterText(style, config.tenantColumn, tables, ExistingPlaceholders(style, text) + 1),
                     SelectEnds(), true), if style == Question then tenants + args else args + tenants))
  {
    hide ExtractTables, InjectWhere, SelectEnds, FilterText, ExistingPlaceholders, TenantTablesOf;
  }

  lemma OneTableFilter(config: Config, style: Style, t: TableRef, first: int)
    requires IsTenantTable(config, t.name)
    ensures TenantTablesOf(config, [t]) == [t]
    ensures FilterText(style, config.tenantColumn, [t], first) ==
            Equals(style, Qualifier(t) + "." + config.tenantColumn, first)
  {
    hide IsTenantTable, Equals;
    assert [t][..0] == [];
  }

  lemma FilteredText(q: SelectQuery, filter: string)
    requires q.cond.None?
    ensures StatementText(WithFilter(StatementOf(q), filter)) ==
            q.columns + " FROM " + ClauseText(q.from) + " WHERE " + filter + q.tail
  {
    hide ClauseText;
    NoneTexts(StatementOf(q), filter);
  }

  /** A query on one tenant table with a locking clause and no WHERE, whose reference does not keep its alias: the
      injected equation names the column of a table called FOR, and the database will reject it. */
  lemma LockedQueryNamesFor(config: Config, style: Style, q: SelectQuery, v: Value, args: seq<Value>,
                            keyword: string, rest: string, more: string)
    requires ShapedSelect(q) && q.cond.None? && LockedTail(q.tail, keyword, rest, more)
    requires q.from.joins == [] && !LockSafe(q.from) && IsTenantTable(config, q.from.main.name)
    ensures var text := StatementText(StatementOf(q));
            InjectSelect(config, style, text, v, args) ==
            Ok((q.columns + " FROM " + RefText(q.from.main, q.from.form) +
                " WHERE " + Equals(style, keyword + "." + config.tenantColumn, ExistingPlaceholders(style, text) + 1) +
                  q.tail,
                if style == Question then [v] + args else args + [v]))
  {
    hide *;
    var text := StatementText(StatementOf(q));
    var t := TableRef(q.from.main.name, keyword);
    EndsNonEmpty();
    ShapedParts(q);
    LockedText(q, keyword, rest, more);
    LockedRoundTrip(q.columns, q.from, keyword, rest, more);
    LoneReference(q.from, keyword, rest);
    KeywordIsNotAs(keyword, rest);
    assert Qualifier(t) == keyword by { QualifierIsAlias(t); }
    OneTableFilter(config, style, t, ExistingPlaceholders(style, text) + 1);
    InjectSelectTables(config, style, text, v, args, [t]);
    ShapedStatement(q);
    var filter := Equals(style, keyword + "." + config.tenantColumn, ExistingPlaceholders(style, text) + 1);
    InjectWhereStatement(StatementOf(q), filter, SelectEnds(), SelectOpeningWords(), true);
    FilteredText(q, filter);
    assert [v] == Repeat(v, 1);
  }

  lemma QualifierIsAlias(t: TableRef)
    requires t.alias != ""
    ensures Qualifier(t) == t.alias
  {
  }

  lemma LoneReference(c: Clause, keyword: string, rest: string)
    requires GoodClause(c) && Written(c) && c.joins == [] && !LockSafe(c) && Locking(keyword, rest)
    ensures var c' := WithWords(c, LockWords(keyword, rest));
            [c'.main] + Kept(c'.joins) == [TableRef(c.main.name, keyword)]
    ensures ClauseText(c) == RefText(c.main, c.form)
  {
    hide GoodRef, Locking, ParseTableRef, LockWords, RefText;
    ParseFollowed(c.main, c.form, keyword, rest);
    assert RefText(c.main, c.form) + "" == RefText(c.main, c.form);
  }

  // ----- Bindings in the joins -----

  lemma CutBeforeSpace(a: string, b: string)
    requires b == "" || b[0] == ' '
    ensures SafeCut(a, b)
  {
  }

  lemma KeywordEndsInSpace(kind: JoinKind)
    ensures JoinKeywords()[kind] != "" && JoinKeywords()[kind][|JoinKeywords()[kind]| - 1] == ' '
    ensures Count(JoinKeywords()[kind], '?') == 0
  {
    JoinWordsSpell(kind);
    hide JoinKeywords, Count;
    SpacedEnds(JoinWords(kind));
    NoMarkInJoin(kind);
    CountAbsent(JoinKeywords()[kind], '?');
  }

  lemma {:induction false} SpacedEnds(ws: seq<string>)
    ensures Spaced(ws) != "" && Spaced(ws)[|Spaced(ws)| - 1] == ' '
  {
    if ws != [] {
      SpacedEnds(ws[1..]);
    }
  }

  lemma NoMarkInJoin(kind: JoinKind)
    ensures '?' !in JoinKeywords()[kind]
  {
  }

  /** Slots and marks of the parts of one join. */
  lemma JoinParts(style: Style, js: seq<JoinClause>)
    requires js != [] && forall j :: j in js ==> GoodJoin(j)
    ensures MaxSlot(Scan(style, JoinsText(js[1..]))) <= MaxSlot(Scan(style, JoinsText(js)))
    ensures js[0].on.Some? ==> MaxSlot(Scan(style, js[0].on.value)) <= MaxSlot(Scan(style, JoinsText(js)))
    ensures Count(JoinsText(js), '?') ==
            Count(RefText(js[0].table, js[0].form), '?') + Count(OnText(js[0].on), '?') + Count(JoinsText(js[1..]), '?')
    ensures js[0].on.Some? ==> Count(OnText(js[0].on), '?') == Count(js[0].on.value, '?')
  {
    hide *;
    var kw, ref, on, rest := JoinKeywords()[js[0].kind], RefText(js[0].table, js[0].form), OnText(js[0].on),
      JoinsText(js[1..]);
    JoinsTextCons(js);
    KeywordEndsInSpace(js[0].kind);
    GoodJoins(js);
    JoinsTextStarts(js[1..]);
    OnTextStarts(style, js[0].on);
    CutAfterSpace(kw, ref + (on + rest));
    CutBeforeSpace(ref, on + rest);
    CutBeforeSpace(on, rest);
    SlotsOfParts(style, kw, ref + (on + rest));
    SlotsOfParts(style, ref, on + rest);
    SlotsOfParts(style, on, rest);
    CountConcat(kw, ref + (on + rest), '?');
    CountConcat(ref, on + rest, '?');
    CountConcat(on, rest, '?');
  }

  lemma OnTextStarts(style: Style, on: Option<string>)
    ensures OnText(on) == "" || OnText(on)[0] == ' '
    ensures on.Some? ==> Count(OnText(on), '?') == Count(on.value, '?')
    ensures on.Some? ==> MaxSlot(Scan(style, on.value)) <= MaxSlot(Scan(style, OnText(on)))
  {
    hide Scan, MaxSlot, Count;
    if on.Some? {
      CutAfterSpace(" ON ", on.value);
      SlotsOfParts(style, " ON ", on.value);
      CountConcat(" ON ", on.value, '?');
      OnHasNoMark();
    }
  }

  lemma OnHasNoMark()
    ensures Count(" ON ", '?') == 0 && Count(" FROM ", '?') == 0
  {
    CountAbsent(" ON ", '?');
    CountAbsent(" FROM ", '?');
  }

  lemma {:induction false} OnPiecesSame(style: Style, js: seq<JoinClause>, args: seq<Value>, args': seq<Value>,
                                        vs: seq<Value>, k: nat)
    requires forall j :: j in js ==> GoodJoin(j)
    requires ArgsExtended(style, args, args', vs, 0)
    requires style != Question ==> MaxSlot(Scan(style, JoinsText(js))) <= |args|
    requires style == Question ==> k + Count(JoinsText(js), '?') == 0
    ensures OnPieces(style, js, args', k) == OnPieces(style, js, args, k)
    decreases |js|
  {
    hide Scan, MaxSlot, JoinsText, RefText, OnText, Count, GoodJoin, Resolve, ArgsExtended;
    if js != [] {
      JoinParts(style, js);
      var k1 := k + Count(RefText(js[0].table, js[0].form), '?');
      if js[0].on.Some? {
        ResolveBefore(style, js[0].on.value, args, args', vs, 0, k1);
      }
      OnPiecesSame(style, js[1..], args, args', vs, k1 + Count(OnText(js[0].on), '?'));
    }
  }

  /** Column list and ON conditions keep their bindings. */
  lemma HeadSame(style: Style, q: SelectQuery, args: seq<Value>, args': seq<Value>, vs: seq<Value>)
    requires GoodClause(q.from)
    requires ArgsExtended(style, args, args', vs, 0)
    requires style != Question ==> MaxSlot(Scan(style, StatementOf(q).head)) <= |args|
    requires style == Question ==> Count(StatementOf(q).head, '?') == 0
    ensures Resolve(style, q.columns, args', 0) == Resolve(style, q.columns, args, 0)
    ensures var k := Count(q.columns, '?') + Count(RefText(q.from.main, q.from.form), '?');
            OnPieces(style, q.from.joins, args', k) == OnPieces(style, q.from.joins, args, k)
  {
    hide *;
    var main, joins := RefText(q.from.main, q.from.form), JoinsText(q.from.joins);
    GoodClauseJoins(q.from);
    JoinsTextStarts(q.from.joins);
    HeadText(q);
    CutBeforeSpace(q.columns, " FROM " + (main + joins));
    CutAfterSpace(" FROM ", main + joins);
    CutBeforeSpace(main, joins);
    SlotsOfParts(style, q.columns, " FROM " + (main + joins));
    SlotsOfParts(style, " FROM ", main + joins);
    SlotsOfParts(style, main, joins);
    CountConcat(q.columns, " FROM " + (main + joins), '?');
    CountConcat(" FROM ", main + joins, '?');
    CountConcat(main, joins, '?');
    ResolveBefore(style, q.columns, args, args', vs, 0, 0);
    OnPiecesSame(style, q.from.joins, args, args', vs, Count(q.columns, '?') + Count(main, '?'));
  }

  lemma GoodClauseJoins(c: Clause)
    requires GoodClause(c)
    ensures GoodRef(c.main, c.form) && forall j :: j in c.joins ==> GoodJoin(j)
  {
  }

  lemma HeadText(q: SelectQuery)
    ensures StatementOf(q).head == q.columns +
            (" FROM " + (RefText(q.from.main, q.from.form) + JoinsText(q.from.joins)))
  {
  }

  // ----- The theorem -----

  /** The joins whose meaning is a filtered product: INNER JOIN, CROSS JOIN and plain JOIN. */
  ghost predicate InnerJoins(js: seq<JoinClause>) {
    forall j :: j in js ==> j.kind in {5, 6, 8}
  }

  ghost predicate DistinctQualifiers(tables: seq<TableRef>) {
    forall i, k :: 0 <= i < k < |tables| ==> Qualifier(tables[i]) != Qualifier(tables[k])
  }

  lemma {:induction false} TenantTablesMembers(config: Config, tables: seq<TableRef>)
    ensures forall t :: t in TenantTablesOf(config, tables) <==> t in tables && IsTenantTable(config, t.name)
  {
    if tables != [] {
      var n := |tables| - 1;
      TenantTablesMembers(config, tables[..n]);
      assert tables == tables[..n] + [tables[n]];
    }
  }

  /** The equations injected for some of the tables are all true exactly when the rows of those tables are the
      tenant's. */
  lemma GuardAtoms(env: Env, own: seq<TableRef>, tables: seq<TableRef>, column: string, v: Value, sense: AtomSense)
    requires EnvFor(env, tables) && DistinctQualifiers(tables) && '.' !in column && v != Null
    requires forall t :: t in own ==> t in tables
    ensures (forall a :: a in AtomsOf(column, own, v) ==> AtomTruth(env, a, sense) == True) <==>
            (forall i :: 0 <= i < |tables| && tables[i] in own ==> Owned(env[i].row, column, v))
  {
    hide AtomTruth, Qualifier, Owned;
    forall i | 0 <= i < |tables|
      ensures AtomTruth(env, TenantAtom(Qualifier(tables[i]) + "." + column, v), sense) == True <==>
              Owned(env[i].row, column, v)
    {
      TenantAtomTruth(env, i, column, v, sense);
    }
    if forall i :: 0 <= i < |tables| && tables[i] in own ==> Owned(env[i].row, column, v) {
      forall a | a in AtomsOf(column, own, v) ensures AtomTruth(env, a, sense) == True {
        var k :| 0 <= k < |own| && a == AtomsOf(column, own, v)[k];
        assert own[k] in own;
        var i :| 0 <= i < |tables| && tables[i] == own[k];
      }
    } else {
      var i :| 0 <= i < |tables| && tables[i] in own && !Owned(env[i].row, column, v);
      var k :| 0 <= k < |own| && own[k] == tables[i];
      assert AtomsOf(column, own, v)[k] in AtomsOf(column, own, v);
    }
  }

  /** The tenant tables that the extraction finds. */
  function FoundTables(config: Config, q: SelectQuery): seq<TableRef> {
    TenantTablesOf(config, [q.from.main] + Kept(q.from.joins))
  }

  /** It finds all of them. */
  ghost predicate AllFound(config: Config, q: SelectQuery) {
    forall t :: t in AllTables(q) && IsTenantTable(config, t.name) ==> t in FoundTables(config, q)
  }

  /** In this combination of rows, those of the tenant tables that are found are the tenant's. */
  predicate Guarded(env: Env, config: Config, q: SelectQuery, v: Value) {
    && |env| == |AllTables(q)|
    && forall i :: 0 <= i < |env| && AllTables(q)[i] in FoundTables(config, q) ==>
                     Owned(env[i].row, config.tenantColumn, v)
  }

  lemma {:induction false} KeptIn(js: seq<JoinClause>)
    ensures |Kept(js)| <= |js| && forall t :: t in Kept(js) ==> t in Tables(js)
    decreases |js|
  {
    if js != [] {
      hide HasOn;
      KeptIn(js[1..]);
      KeptIn(AfterFirstOn(js[1..]));
      AfterFirstOnTables(js[1..]);
    }
  }

  lemma {:induction false} AfterFirstOnTables(js: seq<JoinClause>)
    ensures |AfterFirstOn(js)| <= |js| && forall t :: t in Tables(AfterFirstOn(js)) ==> t in Tables(js)
  {
    if js != [] && js[0].on.None? {
      AfterFirstOnTables(js[1..]);
    }
  }

  /** So it does when no join without ON stands before a join with ON. */
  lemma OnFirstFindsAll(config: Config, q: SelectQuery)
    requires OnFirst(q.from.joins)
    ensures AllFound(config, q)
  {
    hide IsTenantTable, Kept, OnFirst, Tables;
    KeptAll(q.from.joins);
    TenantTablesMembers(config, AllTables(q));
  }

  lemma FoundIn(config: Config, q: SelectQuery)
    ensures |FoundTables(config, q)| <= |AllTables(q)|
    ensures forall t :: t in FoundTables(config, q) ==> t in AllTables(q) && IsTenantTable(config, t.name)
  {
    hide Kept, IsTenantTable, Tables;
    KeptIn(q.from.joins);
    TenantTablesBound(config, [q.from.main] + Kept(q.from.joins));
    TenantTablesMembers(config, [q.from.main] + Kept(q.from.joins));
  }

  /** What the rewriter makes of a SELECT. */
  function Rewrite(config: Config, style: Style, q: SelectQuery): SelectQuery {
    if FoundTables(config, q) == [] then q else WithTenant(q, TenantFilter(config, style, q))
  }

  function RewriteArgs(config: Config, style: Style, q: SelectQuery, v: Value, args: seq<Value>): seq<Value> {
    var tenants := Repeat(v, |FoundTables(config, q)|);
    if style == Question then tenants + args else args + tenants
  }

  /** What the meaning theorem asks of a query: inner joins, distinct qualifiers, names that lex as one word, a
      condition that parses, and, under `?`, no mark before the insertion point. */
  ghost predicate Rewritable(config: Config, style: Style, q: SelectQuery, args: seq<Value>) {
    && GoodSelect(q) && InnerJoins(q.from.joins) && DistinctQualifiers(AllTables(q))
    && GoodColumn(config.tenantColumn)
    && (forall t :: t in AllTables(q) ==> GoodName(Qualifier(t)))
    && |args| == ExistingPlaceholders(style, StatementText(StatementOf(q)))
       && CountsAll(style, StatementText(StatementOf(q)))
    && |args| + |AllTables(q)| <= MAX_INT
    && (style == Question ==> Count(StatementOf(q).head, '?') == 0)
    && (q.cond.Some? ==> Parse(Resolve(style, q.cond.value, args, Count(StatementOf(q).head, '?'))).Some?)
  }

  lemma SelectRewriteText(config: Config, style: Style, q: SelectQuery, v: Value, args: seq<Value>)
    requires Rewritable(config, style, q, args)
    ensures InjectSelect(config, style, StatementText(StatementOf(q)), v, args) ==
            Ok((StatementText(StatementOf(Rewrite(config, style, q))), RewriteArgs(config, style, q, v, args)))
  {
    hide StatementOf, StatementText, InjectSelect, TenantFilter, TenantTablesOf, Kept, AllTables, GoodSelect;
    SelectText(config, style, q, v, args);
    assert [] + args == args == args + [];
  }

  /** The joined and filtered rows of a query. */
  function Rows(style: Style, q: SelectQuery, args: seq<Value>, db: Database, sense: AtomSense): seq<Env> {
    Where(Envs(db, AllTables(q), Ons(style, q, args), sense), PartsOf(style, StatementOf(q), args).cond, sense)
  }

  function Ons(style: Style, q: SelectQuery, args: seq<Value>): (r: seq<Option<seq<Piece>>>)
    ensures |r| == |AllTables(q)|
  {
    [None] + OnPieces(style, q.from.joins, args, Count(q.columns, '?') + Count(RefText(q.from.main, q.from.form), '?'))
  }

  ghost predicate Extended(config: Config, style: Style, q: SelectQuery, v: Value, args: seq<Value>) {
    ArgsExtended(style, args, RewriteArgs(config, style, q, v, args), Repeat(v, |FoundTables(config, q)|),
                 0)
  }

  lemma ArgsAreExtended(config: Config, style: Style, q: SelectQuery, v: Value, args: seq<Value>)
    ensures Extended(config, style, q, v, args)
  {
    assert args[..0] == [] && args[0..] == args;
  }

  lemma TenantTablesBound(config: Config, tables: seq<TableRef>)
    ensures |TenantTablesOf(config, tables)| <= |tables|
  {
  }

  /** Every injected placeholder is bound to the tenant. */
  lemma FilterBinds(config: Config, style: Style, q: SelectQuery, v: Value, args: seq<Value>)
    requires Rewritable(config, style, q, args)
    ensures var own := FoundTables(config, q);
            var args' := RewriteArgs(config, style, q, v, args);
            && Resolve(style, TenantFilter(config, style, q), args', 0) == FilterPieces(config.tenantColumn, own, v)
            && Count(TenantFilter(config, style, q), '?') == MarkCount(style, |own|)
  {
    hide TenantTablesOf, StatementText, Kept, GoodSelect, Resolve, Count, DistinctQualifiers, Parse, FilterText,
         Qualifier;
    var own := FoundTables(config, q);
    var args' := RewriteArgs(config, style, q, v, args);
    FoundIn(config, q);
    assert BindsTenants(style, args', 0, |args| + 1, |own|, v);
    assert PlainTables(own) by {
      forall t | t in own ensures Plain(Qualifier(t)) {
        assert t in AllTables(q) && GoodName(Qualifier(t));
      }
    }
    ResolveFilter(style, config.tenantColumn, own, |args| + 1, args', 0, v);
  }

  /** The parts of the rewritten query, with its arguments in place. */
  lemma RewrittenParts(config: Config, style: Style, q: SelectQuery, v: Value, args: seq<Value>)
    requires Rewritable(config, style, q, args)
    ensures var q', args' := Rewrite(config, style, q), RewriteArgs(config, style, q, v, args);
            var own := FoundTables(config, q);
            var p, p' := PartsOf(style, StatementOf(q), args), PartsOf(style, StatementOf(q'), args');
            && AllTables(q') == AllTables(q)
            && Resolve(style, q'.columns, args', 0) == Resolve(style, q.columns, args, 0)
            && Ons(style, q', args') == Ons(style, q, args)
            && p'.tail == p.tail
            && p'.cond == if own == [] then p.cond
                          else Some(ConjoinedPieces(FilterPieces(config.tenantColumn, own, v),
                                                    InnerCondition(style, q, args)))
  {
    hide *;
    RewritableParts(config, style, q, args);
    var s := StatementOf(q);
    var own := FoundTables(config, q);
    var args' := RewriteArgs(config, style, q, v, args);
    RewriteFields(config, style, q, v, args);
    if own != [] {
      ArgsAreExtended(config, style, q, v, args);
      ExtendedMeans(config, style, q, v, args);
      GoodIsShaped(q);
      TailStarts(q);
      StatementTail(q);
      StatementSlots(style, s);
      Existing(style, StatementText(s));
      HeadSame(style, q, args, args', Repeat(v, |own|));
      FilterBinds(config, style, q, v, args);
      HeadMarks(style, q);
      BindingsPreserved(style, s, TenantFilter(config, style, q), FilterPieces(config.tenantColumn, own, v), args,
                        args', Repeat(v, |own|));
      WithTenantStatement(q, TenantFilter(config, style, q));
      OnsUnfold(style, q, args);
      OnsUnfold(style, WithTenant(q, TenantFilter(config, style, q)), args');
      InnerUnfold(style, q, args);
    }
  }

  /** The trimmed condition with its arguments in place. */
  function InnerCondition(style: Style, q: SelectQuery, args: seq<Value>): Option<seq<Piece>> {
    match q.cond case None => None case Some(c) => Some(Resolve(style, Trim(c), args, Count(StatementOf(q).head, '?')))
  }

  lemma InnerUnfold(style: Style, q: SelectQuery, args: seq<Value>)
    ensures InnerCondition(style, q, args) ==
            match StatementOf(q).cond case None => None
            case Some(c) => Some(Resolve(style, Trim(c), args, Count(StatementOf(q).head, '?')))
  {
  }

  lemma StatementTail(q: SelectQuery)
    ensures StatementOf(q).tail == q.tail && StatementOf(q).cond == q.cond
  {
  }

  lemma OnsUnfold(style: Style, q: SelectQuery, args: seq<Value>)
    ensures Ons(style, q, args) ==
            [None] + OnPieces(style, q.from.joins, args, Count(q.columns, '?') +
                              Count(RefText(q.from.main, q.from.form), '?'))
  {
    hide Count, RefText, OnPieces;
  }

  lemma RewritableParts(config: Config, style: Style, q: SelectQuery, args: seq<Value>)
    requires Rewritable(config, style, q, args)
    ensures GoodSelect(q) && GoodClause(q.from)
    ensures |args| == ExistingPlaceholders(style, StatementText(StatementOf(q)))
            && CountsAll(style, StatementText(StatementOf(q)))
    ensures style == Question ==> Count(StatementOf(q).head, '?') == 0
    ensures q.cond.Some? ==> Parse(Resolve(style, q.cond.value, args, Count(StatementOf(q).head, '?'))).Some?
    ensures GoodColumn(config.tenantColumn) && forall t :: t in AllTables(q) ==> GoodName(Qualifier(t))
    ensures DistinctQualifiers(AllTables(q))
  {
    hide Resolve, Parse, Count, StatementText, ExistingPlaceholders;
  }

  lemma HeadMarks(style: Style, q: SelectQuery)
    requires style == Question ==> Count(StatementOf(q).head, '?') == 0
    ensures forall f, args {:trigger Resolve(style, f, args, 0)} ::
              Resolve(style, f, args, Count(StatementOf(q).head, '?')) == Resolve(style, f, args, 0)
  {
    hide ResolveMarks, Scan, Count;
  }

  lemma ExtendedMeans(config: Config, style: Style, q: SelectQuery, v: Value, args: seq<Value>)
    requires Extended(config, style, q, v, args)
    requires style == Question ==> Count(StatementOf(q).head, '?') == 0
    ensures var vs := Repeat(v, |FoundTables(config, q)|);
            && ArgsExtended(style, args, RewriteArgs(config, style, q, v, args), vs, 0)
            && ArgsExtended(style, args, RewriteArgs(config, style, q, v, args), vs, Count(StatementOf(q).head, '?'))
  {
    hide Count, RewriteArgs, FoundTables;
  }

  lemma RewriteFields(config: Config, style: Style, q: SelectQuery, v: Value, args: seq<Value>)
    ensures var own, q' := FoundTables(config, q), Rewrite(config, style, q);
            && AllTables(q') == AllTables(q) && q'.columns == q.columns
            && q' == (if own == [] then q else WithTenant(q, TenantFilter(config, style, q)))
            && (own == [] ==> RewriteArgs(config, style, q, v, args) == args)
            && WithTenant(q, TenantFilter(config, style, q)).columns == q.columns
            && WithTenant(q, TenantFilter(config, style, q)).from == q.from
  {
    hide FoundTables, TenantFilter;
    assert [] + args == args == args + [];
  }

  /** The rewritten condition holds when the original does and the found tenant tables' rows are the tenant's. */
  lemma RewrittenHolds(config: Config, style: Style, q: SelectQuery, v: Value, args: seq<Value>, e: Env,
                       sense: AtomSense)
    requires Rewritable(config, style, q, args) && v != Null && EnvFor(e, AllTables(q))
    ensures var q', args' := Rewrite(config, style, q), RewriteArgs(config, style, q, v, args);
            Holds(PartsOf(style, StatementOf(q'), args').cond, e, sense) <==>
            Guarded(e, config, q, v) && Holds(PartsOf(style, StatementOf(q), args).cond, e, sense)
  {
    hide *;
    RewritableParts(config, style, q, args);
    RewrittenParts(config, style, q, v, args);
    var own := FoundTables(config, q);
    var p := PartsOf(style, StatementOf(q), args);
    PartsOfFields(style, StatementOf(q), args);
    StatementTail(q);
    ColumnHasNoDot(config.tenantColumn);
    FoundIn(config, q);
    GuardAtoms(e, own, AllTables(q), config.tenantColumn, v, sense);
    GuardedUnfold(e, config, q, v);
    if own == [] {
      AtomsOfNone(config.tenantColumn, v);
    } else {
      AtomsAreEquations(config.tenantColumn, own, v);
      LexFilter(config.tenantColumn, own, v);
      InnerUnfold(style, q, args);
      if q.cond.Some? {
        LexTrimmed(style, q.cond.value, args, Count(StatementOf(q).head, '?'));
      }
      ConjunctionHolds(FilterPieces(config.tenantColumn, own, v), AtomsOf(config.tenantColumn, own, v), p.cond,
                       InnerCondition(style, q, args), e, sense);
    }
  }

  lemma GuardedUnfold(e: Env, config: Config, q: SelectQuery, v: Value)
    requires EnvFor(e, AllTables(q))
    ensures Guarded(e, config, q, v) <==>
            forall i :: 0 <= i < |AllTables(q)| && AllTables(q)[i] in FoundTables(config, q) ==>
                          Owned(e[i].row, config.tenantColumn, v)
  {
    hide FoundTables, AllTables, Owned, Qualifier;
  }

  lemma ColumnHasNoDot(column: string)
    requires GoodColumn(column)
    ensures '.' !in column
  {
  }

  lemma AtomsOfNone(column: string, v: Value)
    ensures AtomsOf(column, [], v) == []
  {
  }

  lemma AtomsAreEquations(column: string, tables: seq<TableRef>, v: Value)
    ensures forall a :: a in AtomsOf(column, tables, v) ==> Equation(a)
    ensures tables != [] ==> AtomsOf(column, tables, v) != []
  {
  }
}
