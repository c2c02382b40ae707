/** The rewritten text of statements as they are commonly written, spelled out: what is searched for, what is put in and
    where. */
module WrittenStatements {
  import opened Text
  import opened Placeholders
  import opened Keywords
  import opened FromClause
  import opened Rewriter
  import opened InsertRewriter
  import SelectMeaning
  import LetterCase
  import MutationMeaning

  /** No table without a name is found. */
  lemma {:induction false} TablesNamed(rem: string)
    ensures forall t :: t in JoinedTables(rem) ==> t.name != ""
    decreases |rem|
  {
    hide TakeTable, NextJoin;
    var n := NextJoin(rem);
    if n.Some? {
      TablesNamed(n.value.1);
    }
  }

  lemma FromInQuery(query: string)
    ensures var from := Index(Upper(query), " FROM "); -1 <= from <= |query| == |Upper(query)|
    ensures Index(Upper(query), " FROM ") == -1 ==> ExtractTables(query) == Ok([])
  {
    var u := Upper(query);
    var from := Index(u, " FROM ");
    assert from == -1 || MatchAt(u, from, " FROM ");
    JoinKeywordsNonEmpty();
    hide Upper, Index, SectionEnd, JoinedTables, FirstOf, ParseTableRef, Trim;
  }

  lemma ExtractedNamed(query: string)
    requires ExtractTables(query).Ok?
    ensures forall t :: t in ExtractTables(query).value ==> t.name != ""
  {
    hide *;
    FromInQuery(query);
    JoinKeywordsNonEmpty();
    var from := Index(Upper(query), " FROM ");
    if from != -1 {
      var end := SectionEnd(Upper(query), from);
      LetterCase.ExtractIs(query, from, end);
      if end >= from + 6 {
        TablesNamed(query[from + 6..end]);
      }
    }
  }

  /** None of the words that open a clause stands alone in the text, in any letter case. */
  ghost predicate Quiet(s: string) {
    CleanOf(s, ["FROM", "WHERE", "LEFT", "RIGHT", "FULL", "INNER", "CROSS", "NATURAL", "JOIN", "ON", "ORDER", "GROUP",
                "LIMIT", "HAVING", "UNION", "EXCEPT", "INTERSECT", "FOR", "RETURNING"])
  }

  /** The text starts with one of the keywords, in any letter case. */
  ghost predicate OpensTail(tail: string, kws: seq<string>) {
    exists kw :: kw in kws && |kw| <= |tail| && Upper(tail[..|kw|]) == kw
  }

  /** A table as it is written: one word. */
  ghost predicate TableName(name: string) {
    name != "" && NoSpaces(name) && name[|name| - 1] != ',' && Quiet(name)
  }

  lemma QuietWords(s: string)
    requires Quiet(s)
    ensures CleanOf(s, Reserved()) && CleanOf(s, SelectMeaning.SelectOpeningWords()) && CleanOf(s, ["RETURNING"])
    ensures Clean(s, "FROM") && Clean(s, "WHERE")
  {
    hide Clean;
  }

  lemma QuietIsNoWord(s: string)
    requires Quiet(s)
    ensures Upper(s) !in Reserved()
  {
    QuietWords(s);
    if Upper(s) in Reserved() {
      assert Clean(s, Upper(s));
      assert MatchAt(" " + Upper(s) + " ", 0, " " + Upper(s) + " ");
    }
  }

  lemma TailStarts(tail: string, kws: seq<string>)
    requires OpensTail(tail, kws) && forall kw :: kw in kws ==> kw != "" && kw[0] == ' '
    ensures StartsWithOneOf(tail, kws)
  {
    var kw :| kw in kws && |kw| <= |tail| && Upper(tail[..|kw|]) == kw;
    assert Upper(tail)[0..|kw|] == Upper(tail[..|kw|]);
    assert UpChar(tail[0]) == ' ';
    var k :| 0 <= k < |kws| && kws[k] == kw;
    assert MatchAt(Upper(tail), 0, kws[k]);
  }

  lemma StartsAmong(tail: string, kws: seq<string>, more: seq<string>)
    requires StartsWithOneOf(tail, kws) && forall kw :: kw in kws ==> kw in more
    ensures StartsWithOneOf(tail, more)
  {
    var k :| 0 <= k < |kws| && MatchAt(Upper(tail), 0, kws[k]);
    assert kws[k] in more;
    var l :| 0 <= l < |more| && more[l] == kws[k];
  }

  // ----- SELECT from one table -----

  /** A table as it is written, with its alias if it has one. */
  function Ref(t: TableRef): string {
    if t.alias == "" then t.name else t.name + " " + t.alias
  }

  ghost predicate Written(t: TableRef) {
    TableName(t.name) && (t.alias == "" || TableName(t.alias))
  }

  lemma RefIsClean(t: TableRef, w: string)
    requires Written(t) && IsWord(w) && Clean(t.name, w) && (t.alias == "" || Clean(t.alias, w))
    ensures Clean(Ref(t), w) && Ref(t) != "" && !IsSpace(Ref(t)[|Ref(t)| - 1])
  {
    assert NoSpaces(w);
    hide Clean, Quiet;
    if t.alias != "" {
      CleanSpace(t.name, t.alias, w);
      assert Ref(t)[|Ref(t)| - 1] == t.alias[|t.alias| - 1];
    }
  }

  function OneTable(columns: string, t: TableRef, cond: Option<string>, tail: string): SelectMeaning.SelectQuery {
    SelectMeaning.SelectQuery(columns, Clause(t, Short, []), cond, tail)
  }

  lemma OneTableHead(columns: string, t: TableRef, cond: Option<string>, tail: string)
    ensures SelectMeaning.StatementOf(OneTable(columns, t, cond, tail)) ==
            Statement(columns + " FROM " + Ref(t), cond, tail)
  {
    assert RefText(t, Short) == Ref(t) && Ref(t) + "" == Ref(t);
  }

  lemma HeadIsClean(columns: string, name: string, w: string)
    requires Clean(columns, w) && Clean(name, w) && IsWord(w) && w != "FROM"
    ensures Clean(columns + " FROM " + name, w)
  {
    hide Clean;
    assert IsWord("FROM") && NoSpaces(w);
    CleanOfWord("FROM", w);
    CleanSpace(columns, "FROM", w);
    CleanSpace(columns + " " + "FROM", name, w);
    assert columns + " " + "FROM" + " " + name == columns + " FROM " + name;
  }

  lemma OneTableGood(columns: string, t: TableRef, cond: Option<string>, tail: string)
    requires Quiet(columns) && columns != "" && !IsSpace(columns[0]) && Written(t)
    requires cond.Some? ==> Quiet(cond.value)
    requires tail == "" || StartsWithOneOf(tail, SelectEnds())
    requires cond.None? ==> Absent(" WHERE ", Upper(tail)) && (tail == "" || StartsWithOneOf(tail, EndMarkers()))
    ensures SelectMeaning.GoodSelect(OneTable(columns, t, cond, tail))
  {
    OneTableHead(columns, t, cond, tail);
    QuietWords(columns);
    WrittenWords(t);
    if cond.Some? {
      QuietWords(cond.value);
    }
    HeadIsGood(columns, t);
    hide Clean, SelectMeaning.SelectOpeningWords, Reserved, SelectEnds, EndMarkers, StartsWithOneOf, Absent, Trimmed,
         Ref, Quiet, TableName, Identifier, SelectMeaning.StatementOf, GoodRef;
  }

  lemma HeadIsGood(columns: string, t: TableRef)
    requires Quiet(columns) && columns != "" && !IsSpace(columns[0]) && Written(t)
    ensures Trimmed(columns + " FROM " + Ref(t))
    ensures CleanOf(columns + " FROM " + Ref(t), SelectMeaning.SelectOpeningWords())
  {
    QuietWords(columns);
    WrittenWords(t);
    SelectWords();
    var head := columns + " FROM " + Ref(t);
    hide IsWord, SelectMeaning.SelectOpeningWords, Quiet, TableName, GoodRef, Clean, Ref, Written, Reserved;
    forall w | w in SelectMeaning.SelectOpeningWords() ensures Clean(head, w) {
      RefIsClean(t, w);
      HeadIsClean(columns, Ref(t), w);
    }
    RefIsClean(t, "ORDER");
    HeadEnds(columns, Ref(t));
  }

  lemma HeadEnds(columns: string, ref: string)
    requires columns != "" && !IsSpace(columns[0]) && ref != "" && !IsSpace(ref[|ref| - 1])
    ensures Trimmed(columns + " FROM " + ref)
  {
    var head := columns + " FROM " + ref;
    assert head[0] == columns[0] && head[|head| - 1] == ref[|ref| - 1];
  }

  lemma WrittenWords(t: TableRef)
    requires Written(t)
    ensures GoodRef(t, Short)
    ensures CleanOf(t.name, SelectMeaning.SelectOpeningWords())
    ensures t.alias != "" ==> CleanOf(t.alias, SelectMeaning.SelectOpeningWords())
  {
    QuietWords(t.name);
    QuietIsNoWord(t.name);
    if t.alias != "" {
      QuietWords(t.alias);
      QuietIsNoWord(t.alias);
    }
    hide Clean, Quiet, Reserved, SelectMeaning.SelectOpeningWords;
  }

  lemma SelectWords()
    ensures forall w :: w in SelectMeaning.SelectOpeningWords() ==> IsWord(w) && w != "FROM"
    ensures "ORDER" in SelectMeaning.SelectOpeningWords()
  {
  }

  /** The equation for a table so called, as the rewriter writes it for a statement. */
  function Equation(config: Config, style: Style, name: string, text: string): string {
    name + "." + config.tenantColumn + " = " + Placeholder(style, ExistingPlaceholders(style, text) + 1)
  }

  lemma EquationIs(config: Config, style: Style, name: string, text: string)
    ensures Equation(config, style, name, text) ==
            name + "." + config.tenantColumn + " = " + Placeholder(style, ExistingPlaceholders(style, text) + 1)
  {
  }

  lemma OneTableTenant(config: Config, t: TableRef)
    ensures TenantTablesOf(config, [t] + Kept([])) == if NamesTenantTable(config, t.name) then [t] else []
  {
    TenantTableIff(config, t.name);
    hide IsTenantTable, NamesTenantTable;
    var ts := [t];
    assert ts + Kept([]) == ts && ts[..0] == [] && TenantTablesOf(config, []) == [];
  }

  lemma OneEquation(config: Config, style: Style, t: TableRef, n: int)
    ensures FilterText(style, config.tenantColumn, [t], n) ==
            (if t.alias == "" then t.name else t.alias) + "." + config.tenantColumn + " = " + Placeholder(style, n)
  {
    hide Placeholder;
    var ts := [t];
    assert ts[..0] == [] && FilterText(style, config.tenantColumn, [], n) == "";
  }

  lemma OneTableRewritten(config: Config, style: Style, columns: string, t: TableRef, cond: Option<string>,
                          tail: string, v: Value, args: seq<Value>)
    requires SelectMeaning.GoodSelect(OneTable(columns, t, cond, tail))
    ensures var s := Statement(columns + " FROM " + Ref(t), cond, tail);
            InjectSelect(config, style, StatementText(s), v, args) ==
            if NamesTenantTable(config, t.name) then
              Ok((StatementText(WithFilter(s,
                                           Equation(config, style, if t.alias == "" then t.name else t.alias,
                                                    StatementText(s)))),
                  if style == Question then [v] + args else args + [v]))
            else Ok((StatementText(s), args))
  {
    hide *;
    var q, s := OneTable(columns, t, cond, tail), Statement(columns + " FROM " + Ref(t), cond, tail);
    OneTableHead(columns, t, cond, tail);
    OneTableTenant(config, t);
    OneEquation(config, style, t, ExistingPlaceholders(style, StatementText(s)) + 1);
    EquationIs(config, style, if t.alias == "" then t.name else t.alias, StatementText(s));
    OneTableFields(config, style, columns, t, cond, tail);
    RepeatOnce(v);
    SelectMeaning.SelectText(config, style, q, v, args);
    SelectMeaning.WithTenantStatement(q, SelectMeaning.TenantFilter(config, style, q));
  }

  lemma RepeatOnce(v: Value)
    ensures Repeat(v, 1) == [v]
  {
  }

  lemma OneTableFields(config: Config, style: Style, columns: string, t: TableRef, cond: Option<string>, tail: string)
    ensures var q := OneTable(columns, t, cond, tail);
            && [q.from.main] + Kept(q.from.joins) == [t] + Kept([])
            && SelectMeaning.TenantFilter(config, style, q) ==
               FilterText(style, config.tenantColumn, TenantTablesOf(config, [t] + Kept([])),
                          ExistingPlaceholders(style, StatementText(SelectMeaning.StatementOf(q))) + 1)
  {
    hide FilterText, TenantTablesOf, ExistingPlaceholders, StatementText, SelectMeaning.StatementOf, Kept;
  }

  lemma WhereTexts(head: string, filter: string, c: string, tail: string)
    ensures StatementText(Statement(head, Some(c), tail)) == head + " WHERE " + c + tail
    ensures StatementText(WithFilter(Statement(head, Some(c), tail), filter)) ==
            head + " WHERE " + (filter + " AND (" + Trim(c) + ")") + tail
    ensures StatementText(Statement(head, None, tail)) == head + tail
    ensures StatementText(WithFilter(Statement(head, None, tail), filter)) == head + " WHERE " + filter + tail
  {
    hide *;
    var none, some := Statement(head, None, tail), Statement(head, Some(c), tail);
    assert none.head == head && none.tail == tail && none.cond == None;
    assert some.head == head && some.tail == tail && some.cond == Some(c);
    NoneTexts(none, filter);
    SomeText(some, c);
    PrintWithFilter(some, filter, c);
    Regrouped(head, " WHERE ", c, tail);
    Around(head + " WHERE ", filter, " AND (" + Trim(c) + ")", tail);
    Around(head + " WHERE " + filter, " AND (", Trim(c), ")" + tail);
    Ends(head + " WHERE " + filter, " AND (", Trim(c), tail);
  }

  lemma Regrouped(a: string, b: string, c: string, d: string)
    ensures a + (b + (c + d)) == a + b + c + d
  {
  }

  lemma Around(a: string, b: string, c: string, d: string)
    ensures a + (b + c) + d == a + b + (c + d)
  {
  }

  lemma Ends(a: string, b: string, c: string, d: string)
    ensures a + b + c + ")" + d == a + (b + c + ")" + d)
  {
  }

  lemma SelectTail(tail: string)
    requires tail == "" || OpensTail(tail, [" ORDER BY ", " GROUP BY ", " LIMIT ", " HAVING ", " UNION ", " EXCEPT ",
                                            " INTERSECT ", " FOR UPDATE", " FOR SHARE"])
    ensures tail == "" || StartsWithOneOf(tail, SelectEnds())
  {
    hide StartsWithOneOf, OpensTail;
    if tail != "" {
      TailStarts(tail, SelectEnds());
    }
  }

  lemma MarkerTail(tail: string)
    requires tail == "" || OpensTail(tail, [" ORDER BY ", " GROUP BY ", " LIMIT ", " HAVING ", " UNION "])
    ensures tail == "" || (StartsWithOneOf(tail, EndMarkers()) && StartsWithOneOf(tail, SelectEnds()))
  {
    hide StartsWithOneOf, OpensTail;
    if tail != "" {
      TailStarts(tail, EndMarkers());
      StartsAmong(tail, EndMarkers(), SelectEnds());
    }
  }

  /** A SELECT from one table, with or without alias, with a WHERE: when some configured table is the table's name, the
      equation for the alias or the name goes in front of the parenthesised condition, and the argument in front of the
      others or behind them; otherwise nothing changes. */
  lemma SelectWhere(config: Config, style: Style, columns: string, t: TableRef, c: string, tail: string, v: Value,
                    args: seq<Value>)
    requires Quiet(columns) && columns != "" && !IsSpace(columns[0]) && Written(t) && Quiet(c)
    requires tail == "" || OpensTail(tail, [" ORDER BY ", " GROUP BY ", " LIMIT ", " HAVING ", " UNION ", " EXCEPT ",
                                            " INTERSECT ", " FOR UPDATE", " FOR SHARE"])
    ensures var table := if t.alias == "" then t.name else t.name + " " + t.alias;
            var text := columns + " FROM " + table + " WHERE " + c + tail;
            var equation := (if t.alias == "" then t.name else t.alias) + "." + config.tenantColumn + " = " +
                            Placeholder(style, ExistingPlaceholders(style, text) + 1);
            InjectSelect(config, style, text, v, args) ==
            if NamesTenantTable(config, t.name) then
              Ok((columns + " FROM " + table + " WHERE " + (equation + " AND (" + Trim(c) + ")") + tail,
                  if style == Question then [v] + args else args + [v]))
            else Ok((text, args))
  {
    hide *;
    SelectTail(tail);
    RefIs(t);
    OneTableGood(columns, t, Some(c), tail);
    var head, qual := columns + " FROM " + Ref(t), if t.alias == "" then t.name else t.alias;
    var text := head + " WHERE " + c + tail;
    OneTableRewritten(config, style, columns, t, Some(c), tail, v, args);
    WhereTexts(head, Equation(config, style, qual, text), c, tail);
    EquationIs(config, style, qual, text);
  }

  lemma RefIs(t: TableRef)
    ensures Ref(t) == if t.alias == "" then t.name else t.name + " " + t.alias
  {
  }

  /** Without a WHERE one is added behind the table. */
  lemma SelectAll(config: Config, style: Style, columns: string, t: TableRef, tail: string, v: Value, args: seq<Value>)
    requires Quiet(columns) && columns != "" && !IsSpace(columns[0]) && Written(t)
    requires tail == "" || OpensTail(tail, [" ORDER BY ", " GROUP BY ", " LIMIT ", " HAVING ", " UNION "])
    requires Absent(" WHERE ", Upper(tail))
    ensures var table := if t.alias == "" then t.name else t.name + " " + t.alias;
            var text := columns + " FROM " + table + tail;
            var equation := (if t.alias == "" then t.name else t.alias) + "." + config.tenantColumn + " = " +
                            Placeholder(style, ExistingPlaceholders(style, text) + 1);
            InjectSelect(config, style, text, v, args) ==
            if NamesTenantTable(config, t.name) then
              Ok((columns + " FROM " + table + " WHERE " + equation + tail,
                  if style == Question then [v] + args else args + [v]))
            else Ok((text, args))
  {
    hide *;
    MarkerTail(tail);
    RefIs(t);
    OneTableGood(columns, t, None, tail);
    var head, qual := columns + " FROM " + Ref(t), if t.alias == "" then t.name else t.alias;
    var text := head + tail;
    OneTableRewritten(config, style, columns, t, None, tail, v, args);
    WhereTexts(head, Equation(config, style, qual, text), "", tail);
    EquationIs(config, style, qual, text);
  }

  /** A table qualified with its schema is filtered like the table itself, by an equation that is so qualified too. */
  lemma SelectQualified(config: Config, style: Style, columns: string, schema: string, base: string, c: string,
                        v: Value, args: seq<Value>)
    requires Quiet(columns) && columns != "" && !IsSpace(columns[0]) && Quiet(c)
    requires TableName(schema + "." + base) && '.' !in base
    requires exists t :: t in config.tenantTables && Lower(t) == Lower(base)
    ensures var name := schema + "." + base;
            var text := columns + " FROM " + name + " WHERE " + c;
            var equation := name + "." + config.tenantColumn + " = " +
                            Placeholder(style, ExistingPlaceholders(style, text) + 1);
            InjectSelect(config, style, text, v, args) ==
            Ok((columns + " FROM " + name + " WHERE " + (equation + " AND (" + Trim(c) + ")"),
                if style == Question then [v] + args else args + [v]))
  {
    hide *;
    var name := schema + "." + base;
    SchemaStripped(config, schema, base);
    WrittenName(name);
    SelectWhere(config, style, columns, TableRef(name, ""), c, "", v, args);
    assert columns + " FROM " + name + " WHERE " + c + "" == columns + " FROM " + name + " WHERE " + c;
    var equation := name + "." + config.tenantColumn + " = " +
                    Placeholder(style, ExistingPlaceholders(style, columns + " FROM " + name + " WHERE " + c) + 1);
    NothingBehind(columns + " FROM " + name + " WHERE " + (equation + " AND (" + Trim(c) + ")"));
  }

  lemma WrittenName(name: string)
    requires TableName(name)
    ensures Written(TableRef(name, ""))
  {
  }

  lemma NothingBehind(s: string)
    ensures s + "" == s
  {
  }

  /** A SELECT without FROM reads no table and is not changed. */
  lemma SelectWithoutFrom(config: Config, style: Style, query: string, v: Value, args: seq<Value>)
    requires Absent(" FROM ", Upper(query))
    ensures InjectSelect(config, style, query, v, args) == Ok((query, args))
  {
    JoinKeywordsNonEmpty();
    assert TenantTablesOf(config, []) == [];
    hide Upper, InjectWhere, FilterText, SectionEnd;
  }

  // ----- Joins -----

  lemma TailEndsTables(rest: string)
    requires rest == "" || OpensTail(rest, [" WHERE ", " ORDER BY ", " GROUP BY ", " LIMIT ", " HAVING ", " UNION "])
    ensures EndsTables(rest)
  {
    if rest != "" {
      var kws := [" WHERE ", " ORDER BY ", " GROUP BY ", " LIMIT ", " HAVING ", " UNION "];
      var kw :| kw in kws && |kw| <= |rest| && Upper(rest[..|kw|]) == kw;
      hide Upper, StartsWithOneOf;
      if kw == " WHERE " {
        assert OpensTail(rest, [" WHERE "]);
        TailStarts(rest, [" WHERE "]);
      } else {
        assert kw in EndMarkers();
        TailStarts(rest, EndMarkers());
      }
    }
  }

  lemma WordTable(name: string, alias: string, form: RefForm)
    requires TableName(name) && TableName(alias) && !form.Verbatim?
    ensures GoodRef(TableRef(name, alias), form)
  {
    QuietIsNoWord(name);
    QuietIsNoWord(alias);
    hide Quiet, Reserved;
  }

  /** The nine kinds of join. */
  lemma JoinSpelled(kw: string) returns (kind: JoinKind)
    requires kw in [" LEFT OUTER JOIN ", " RIGHT OUTER JOIN ", " FULL OUTER JOIN ", " LEFT JOIN ", " RIGHT JOIN ",
                    " INNER JOIN ", " CROSS JOIN ", " NATURAL JOIN ", " JOIN "]
    ensures JoinKeywords()[kind] == kw
  {
    var kws := [" LEFT OUTER JOIN ", " RIGHT OUTER JOIN ", " FULL OUTER JOIN ", " LEFT JOIN ", " RIGHT JOIN ",
                " INNER JOIN ", " CROSS JOIN ", " NATURAL JOIN ", " JOIN "];
    var k :| 0 <= k < |kws| && kws[k] == kw;
    kind := k;
  }

  /** Both tables of a join and their aliases are found, whatever the kind of join and whatever follows. */
  lemma JoinExtracted(columns: string, a: TableRef, kw: string, b: TableRef, on: string, rest: string)
    requires Quiet(columns) && Quiet(on)
    requires TableName(a.name) && TableName(a.alias) && TableName(b.name) && TableName(b.alias)
    requires kw in [" LEFT OUTER JOIN ", " RIGHT OUTER JOIN ", " FULL OUTER JOIN ", " LEFT JOIN ", " RIGHT JOIN ",
                    " INNER JOIN ", " CROSS JOIN ", " NATURAL JOIN ", " JOIN "]
    requires rest == "" || OpensTail(rest, [" WHERE ", " ORDER BY ", " GROUP BY ", " LIMIT ", " HAVING ", " UNION "])
    ensures ExtractTables(columns + " FROM " +
                          (a.name + " " + a.alias + kw + (b.name + " AS " + b.alias) + " ON " + on) +
                          rest) == Ok([a, b])
  {
    var kind := JoinSpelled(kw);
    hide *;
    var j := JoinClause(kind, b, WithAs, Some(on));
    var c := Clause(a, Short, [j]);
    QuietWords(columns);
    QuietWords(on);
    WordTable(a.name, a.alias, Short);
    WordTable(b.name, b.alias, WithAs);
    TailEndsTables(rest);
    JoinIsGood(c, j, on);
    JoinText(a, kind, b, on);
    FromRoundTrip(columns, c, rest);
  }

  lemma JoinIsGood(c: Clause, j: JoinClause, on: string)
    requires c.joins == [j] && GoodRef(c.main, c.form) && GoodRef(j.table, j.form)
    requires j.on == Some(on) && CleanOf(on, Reserved())
    ensures GoodClause(c) && [c.main] + Kept(c.joins) == [c.main, j.table]
  {
    hide GoodRef, CleanOf;
    assert [j][1..] == [] && Kept([]) == [];
    assert Kept([j]) == [j.table] + Kept([j][1..]);
  }

  lemma JoinText(a: TableRef, kind: JoinKind, b: TableRef, on: string)
    requires a.alias != "" && b.alias != ""
    ensures ClauseText(Clause(a, Short, [JoinClause(kind, b, WithAs, Some(on))])) ==
            a.name + " " + a.alias + JoinKeywords()[kind] + (b.name + " AS " + b.alias) + " ON " + on
  {
    hide JoinKeywords;
    var j := JoinClause(kind, b, WithAs, Some(on));
    assert [j][1..] == [] && JoinsText([]) == "";
    assert RefText(b, WithAs) == b.name + " AS " + b.alias;
    assert OnText(Some(on)) + "" == " ON " + on;
    assert JoinsText([j]) == JoinKeywords()[kind] + (b.name + " AS " + b.alias + (" ON " + on));
  }

  // ----- Tables separated by commas -----

  lemma CommaPair(a: string, b: string)
    requires TableName(a) && TableName(b)
    ensures ReadsAs(a + ", " + b, TableRef(a + ",", b))
  {
    var text := a + ", " + b;
    CommaWords(a, b);
    PairParses(text, a + ",", b);
    QuietWords(a);
    QuietWords(b);
    hide Quiet, Clean, Reserved, SelectMeaning.SelectOpeningWords, ParseTableRef, Fields, Trim, TrimSuffix;
    forall w | w in Reserved() ensures Clean(text, w) {
      CommaClean(a, b, w);
    }
  }

  lemma CommaWords(a: string, b: string)
    requires a != "" && NoSpaces(a) && b != "" && NoSpaces(b) && b[|b| - 1] != ','
    ensures var text := a + ", " + b;
            && text != "" && Trimmed(text) && Trim(text) == text && TrimSuffix(text, ",") == text
            && Fields(text) == [a + ",", b]
  {
    hide *;
    var text, rest := a + ", " + b, " " + b;
    CommaEnds(a, b);
    TrimOfTrimmed(text);
    FieldsWord(a + ",", rest);
    BlankFields(b);
    FieldsWord(b, "");
    assert b + "" == b && text == (a + ",") + rest;
  }

  lemma CommaEnds(a: string, b: string)
    requires a != "" && NoSpaces(a) && b != "" && NoSpaces(b) && b[|b| - 1] != ','
    ensures var text := a + ", " + b; text != "" && Trimmed(text) && TrimSuffix(text, ",") == text
    ensures NoSpaces(a + ",") && IsSpace((" " + b)[0])
  {
    var text := a + ", " + b;
    assert text[0] == a[0] && text[|text| - 1] == b[|b| - 1];
    assert text[|text| - 1..] == [b[|b| - 1]];
  }

  lemma BlankFields(b: string)
    ensures Fields(" " + b) == Fields(b) && Fields("") == []
  {
    assert (" " + b)[1..] == b;
  }

  lemma PairParses(text: string, x: string, y: string)
    requires Trim(text) == text && TrimSuffix(text, ",") == text && Fields(text) == [x, y]
    ensures ParseTableRef(text) == TableRef(x, y)
  {
    hide Trim, TrimSuffix, Fields;
  }

  lemma ReservedNoComma()
    ensures forall w :: w in Reserved() ==> ',' !in w
  {
  }

  lemma CommaClean(a: string, b: string, w: string)
    requires Clean(a, w) && Clean(b, w) && w in Reserved() && NoSpaces(a)
    ensures Clean(a + ", " + b, w)
  {
    ReservedAreWords();
    ReservedNoComma();
    hide Clean, Reserved;
    assert IsWord(w) && NoSpaces(w);
    assert NoSpaces(a + ",");
    assert Upper(a + ",")[|a|] == ',';
    CleanWord(a + ",", w);
    CleanSpace(a + ",", b, w);
    assert a + "," + " " + b == a + ", " + b;
  }

  /** Tables separated by commas are not seen: the first counts as a table called like it with the comma, the second as
      its alias. With no such name configured the query is not filtered, whatever tenant tables it reads. */
  lemma CommaJoinUnfiltered(config: Config, style: Style, columns: string, a: string, b: string, rest: string, v: Value,
                            args: seq<Value>)
    requires Quiet(columns) && TableName(a) && TableName(b)
    requires rest == "" || OpensTail(rest, [" WHERE ", " ORDER BY ", " GROUP BY ", " LIMIT ", " HAVING ", " UNION "])
    requires forall t :: t in config.tenantTables ==> ',' !in t
    ensures var text := columns + " FROM " + (a + ", " + b) + rest;
            && ExtractTables(text) == Ok([TableRef(a + ",", b)])
            && InjectSelect(config, style, text, v, args) == Ok((text, args))
  {
    hide *;
    var t, pair := TableRef(a + ",", b), a + ", " + b;
    var c := Clause(t, Verbatim(pair), []);
    CommaPair(a, b);
    QuietWords(columns);
    TailEndsTables(rest);
    VerbatimClause(c, pair);
    FromRoundTrip(columns, c, rest);
    CommaNotConfigured(config, a);
    TenantTableIff(config, t.name);
    NotTenant(config, t);
    EndsNonEmpty();
    SelectMeaning.InjectSelectTables(config, style, columns + " FROM " + pair + rest, v, args, [t]);
  }

  lemma VerbatimClause(c: Clause, text: string)
    requires c.form == Verbatim(text) && c.joins == [] && ReadsAs(text, c.main)
    ensures GoodClause(c) && ClauseText(c) == text && [c.main] + Kept(c.joins) == [c.main]
  {
    hide ReadsAs;
    assert text + "" == text;
  }

  lemma NotTenant(config: Config, t: TableRef)
    requires !IsTenantTable(config, t.name)
    ensures TenantTablesOf(config, [t]) == []
  {
    hide IsTenantTable;
    assert [t][..0] == [] && TenantTablesOf(config, []) == [];
  }

  lemma EndsChar(n: string, l: string)
    requires n != "" && EndsInName(n, l)
    ensures n[|n| - 1] == if l == "" then '.' else l[|l| - 1]
  {
    if n != l {
      assert n[|n| - |l| - 1..][|l|] == n[|n| - 1];
    }
  }

  lemma CommaNotConfigured(config: Config, a: string)
    requires forall t :: t in config.tenantTables ==> ',' !in t
    ensures !NamesTenantTable(config, a + ",")
  {
    var n := Lower(a + ",");
    assert n[|n| - 1] == ',';
    forall t | t in config.tenantTables && EndsInName(n, Lower(t)) ensures false {
      EndsChar(n, Lower(t));
      LastKept(t);
    }
  }

  lemma LastKept(t: string)
    ensures t != "" && Lower(t)[|t| - 1] == ',' ==> ',' in t
  {
    if t != "" {
      assert t[|t| - 1] in t;
    }
  }

  // ----- UPDATE and DELETE -----

  lemma MutationGood(head: string, cond: Option<string>, tail: string)
    requires Quiet(head) && Trimmed(head) && (cond.Some? ==> Quiet(cond.value))
    requires tail == "" || OpensTail(tail, [" RETURNING "])
    requires cond.None? ==> Absent(" WHERE ", Upper(tail))
    ensures MutationMeaning.GoodMutation(Statement(head, cond, tail))
  {
    QuietWords(head);
    if cond.Some? {
      QuietWords(cond.value);
    }
    ReturningTail(tail);
    OpensReturning();
    hide Clean, Opens, Trimmed, StartsWithOneOf, Absent, OpensTail, Quiet, Reserved, SelectMeaning.SelectOpeningWords;
  }

  lemma ReturningTail(tail: string)
    requires tail == "" || OpensTail(tail, [" RETURNING "])
    ensures tail == "" || StartsWithOneOf(tail, MutationEnds())
  {
    hide StartsWithOneOf, OpensTail;
    if tail != "" {
      TailStarts(tail, MutationEnds());
    }
  }

  lemma OpensReturning()
    ensures Opens(" RETURNING ", "RETURNING") && MutationEnds() == [" RETURNING "]
  {
    assert " RETURNING " == " " + "RETURNING" + " ";
    OpensWith("RETURNING", " ");
  }

  /** UPDATE or DELETE with a WHERE: the equation goes in front of the parenthesised condition. Under `?` the argument
      of an UPDATE goes behind those of the marks before WHERE, which is a panic when there are not so many; that of a
      DELETE goes first. */
  lemma MutationWhere(config: Config, style: Style, head: string, c: string, tail: string, v: Value, args: seq<Value>)
    requires Quiet(head) && Trimmed(head) && Quiet(c) && (tail == "" || OpensTail(tail, [" RETURNING "]))
    ensures var text, n := head + " WHERE " + c + tail, Count(head, '?');
            var equation := config.tenantColumn + " = " + Placeholder(style, ExistingPlaceholders(style, text) + 1);
            var text' := head + " WHERE " + (equation + " AND (" + Trim(c) + ")") + tail;
            && InjectUpdate(config, style, text, v, args) ==
               (if style != Question then Ok((text', args + [v]))
                else if n <= |args| then Ok((text', args[..n] + [v] + args[n..])) else Panic)
            && InjectDelete(config, style, text, v, args) ==
               Ok((text', if style == Question then [v] + args else args + [v]))
  {
    hide *;
    var s := Statement(head, Some(c), tail);
    assert s.head == head && s.tail == tail && s.cond == Some(c);
    MutationGood(head, Some(c), tail);
    var text := head + " WHERE " + c + tail;
    var equation := config.tenantColumn + " = " + Placeholder(style, ExistingPlaceholders(style, text) + 1);
    WhereTexts(head, equation, c, tail);
    Spelled(config, style, s, v, args);
  }

  /** Without a WHERE one is added in front of RETURNING, and an UPDATE under `?` has its argument behind those of all
      marks. */
  lemma MutationAll(config: Config, style: Style, head: string, tail: string, v: Value, args: seq<Value>)
    requires Quiet(head) && Trimmed(head) && (tail == "" || OpensTail(tail, [" RETURNING "]))
    requires Absent(" WHERE ", Upper(tail))
    ensures var text, n := head + tail, Count(head, '?') + Count(tail, '?');
            var equation := config.tenantColumn + " = " + Placeholder(style, ExistingPlaceholders(style, text) + 1);
            var text' := head + " WHERE " + equation + tail;
            && InjectUpdate(config, style, text, v, args) ==
               (if style != Question then Ok((text', args + [v]))
                else if n <= |args| then Ok((text', args[..n] + [v] + args[n..])) else Panic)
            && InjectDelete(config, style, text, v, args) ==
               Ok((text', if style == Question then [v] + args else args + [v]))
  {
    hide *;
    var s := Statement(head, None, tail);
    assert s.head == head && s.tail == tail && s.cond == None;
    MutationGood(head, None, tail);
    var text := head + tail;
    var equation := config.tenantColumn + " = " + Placeholder(style, ExistingPlaceholders(style, text) + 1);
    WhereTexts(head, equation, "", tail);
    Spelled(config, style, s, v, args);
  }

  lemma Spelled(config: Config, style: Style, s: Statement, v: Value, args: seq<Value>)
    requires MutationMeaning.GoodMutation(s)
    ensures var text := StatementText(s);
            var n := Count(s.head, '?') + (if s.cond.Some? then 0 else Count(s.tail, '?'));
            var equation := config.tenantColumn + " = " + Placeholder(style, ExistingPlaceholders(style, text) + 1);
            var text' := StatementText(WithFilter(s, equation));
            && InjectUpdate(config, style, text, v, args) ==
               (if style != Question then Ok((text', args + [v]))
                else if n <= |args| then Ok((text', args[..n] + [v] + args[n..])) else Panic)
            && InjectDelete(config, style, text, v, args) ==
               Ok((text', if style == Question then [v] + args else args + [v]))
  {
    hide *;
    MutationMeaning.SetArgCountIs(s);
    MutationMeaning.MutationTextIs(config, style, s);
    TenantEquationIs(config, style, s);
    MutationAnswers(config, style, StatementText(s), v, args);
  }

  lemma TenantEquationIs(config: Config, style: Style, s: Statement)
    ensures MutationMeaning.TenantEquation(config, style, s) ==
            config.tenantColumn + " = " + Placeholder(style, ExistingPlaceholders(style, StatementText(s)) + 1)
  {
    hide Placeholder, ExistingPlaceholders, StatementText;
  }

  lemma MutationAnswers(config: Config, style: Style, text: string, v: Value, args: seq<Value>)
    ensures var text', n := MutationText(config, style, text), SetArgCount(text);
            && InjectUpdate(config, style, text, v, args) ==
               (if style != Question then Ok((text', args + [v]))
                else if n <= |args| then Ok((text', args[..n] + [v] + args[n..])) else Panic)
            && InjectDelete(config, style, text, v, args) ==
               Ok((text', if style == Question then [v] + args else args + [v]))
  {
    hide MutationText, SetArgCount;
  }

  // ----- INSERT -----

  /** The column and its placeholder go first, and the old placeholders of a numbered style move up by one. */
  lemma InsertOneRow(config: Config, style: Style, table: string, columns: seq<string>, values: string, tail: string,
                     v: Value, args: seq<Value>)
    requires Trimmed(table) && '(' !in table && ColumnsApart(columns) && !Listed(columns, config.tenantColumn)
    requires Clean(table + " (" + Joined(columns) + ")", "VALUES") && OneRow(values)
    ensures var old_ := "INSERT INTO " + table + " (" + Joined(columns) + ") VALUES (" + values + ")" + tail;
            var values', tail' := if style == Dollar then Shifted(values, 1) else values,
              if style == Dollar then Shifted(tail, 1) else tail;
            InjectInsert(config, style, old_, v, args) ==
            Ok(("INSERT INTO " + table + " (" + (config.tenantColumn + ", " + Joined(columns)) + ") VALUES (" +
                (Placeholder(style, 1) + ", " + values') + ")" + tail', [v] + args))
  {
    var q := InsertQuery(table, columns, values, [], tail);
    assert GoodInsert(config, q);
    InsertTextIs(config, style, q, v, args);
    hide *;
    var q' := InsertRewrite(config, style, q);
    RewriteParts(config, style, q);
    ShiftedTexts(style, values, tail);
    RowText(q);
    RowText(q');
  }

  lemma ShiftedTexts(style: Style, values: string, tail: string)
    ensures ShiftedText(style, values) == if style == Dollar then Shifted(values, 1) else values
    ensures ShiftedText(style, tail) == if style == Dollar then Shifted(tail, 1) else tail
    ensures ShiftedRows(style, []) == []
  {
    hide Shifted;
  }

  lemma RowText(q: InsertQuery)
    requires q.more == []
    ensures InsertText(q) == "INSERT INTO " + q.table + " (" + Joined(q.columns) + ") VALUES (" + q.first + ")" + q.tail
  {
    hide Joined;
    assert RowsText([]) + q.tail == q.tail;
    var list := q.table + " (" + Joined(q.columns) + ")";
    assert InsertText(q) == "INSERT INTO " + list + (" VALUES " + ("(" + q.first + ")" + q.tail));
  }
}
