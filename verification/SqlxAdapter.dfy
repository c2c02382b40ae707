/** The sqlx adapter: one `?` and one argument added to a query. */
module SqlxAdapter {
  import opened Keywords
  import opened Placeholders
  import opened Text

  function Condition(column: string): string {
    column + " = ?"
  }

  function TailKeywords(): seq<string> {
    ["order by", "limit", "offset", "group by", "having"]
  }

  /** Where the condition is inserted: after the first "where", or before the first tail keyword. */
  function InsertPosition(query: string): (p: nat)
    ensures p <= |query|
  {
    var w := Index(Lower(query), "where");
    if w != -1 then w + 5 else FirstOf(Lower(query), TailKeywords()).0
  }

  /** The text around the condition. */
  function Glue(query: string): (string, string) {
    if Index(Lower(query), "where") != -1 then (" ", " AND") else (" WHERE ", " ")
  }

  /** The index the tenant argument is given. */
  function ArgPosition(query: string): nat {
    var w := Index(Lower(query), "where");
    Count(if w != -1 then query[..w] else query, '?')
  }

  function InjectCondition(column: string, query: string): string {
    var p := InsertPosition(query);
    query[..p] + Glue(query).0 + Condition(column) + Glue(query).1 + query[p..]
  }

  /** Adds the tenant condition, and tells where its argument goes. */
  method InjectTenantCondition(column: string, query: string) returns (r: string, placeholderPos: nat)
    ensures r == InjectCondition(column, query) && placeholderPos == ArgPosition(query)
  {
    var queryLower := Lower(query);
    var tenantCondition := Condition(column);
    var wherePos := Index(queryLower, "where");
    placeholderPos := 0;
    if wherePos != -1 {
      placeholderPos := Count(query[..wherePos], '?');
      var beforeWhere := query[..wherePos + 5];
      var afterWhere := query[wherePos + 5..];
      r := beforeWhere + " " + tenantCondition + " AND" + afterWhere;
    } else {
      var insertPos, _ := FindFirst(queryLower, TailKeywords());
      placeholderPos := Count(query, '?');
      r := query[..insertPos] + " WHERE " + tenantCondition + " " + query[insertPos..];
    }
  }

  function InsertAt<T>(args: seq<T>, pos: nat, v: T): (r: seq<T>)
    requires pos <= |args|
    ensures |r| == |args| + 1
  {
    args[..pos] + [v] + args[pos..]
  }

  /** A fresh array with `v` at `pos` and the arguments around it. */
  method InsertArgAtPosition(args: array<Value>, pos: nat, v: Value) returns (newArgs: array<Value>)
    requires pos <= args.Length
    ensures fresh(newArgs) && newArgs[..] == InsertAt(args[..], pos, v)
  {
    newArgs := new Value[args.Length + 1](_ => v);
    for i := 0 to pos
      invariant newArgs.Length == args.Length + 1 && fresh(newArgs)
      invariant newArgs[..i] == args[..i] && newArgs[pos] == v
    {
      newArgs[i] := args[i];
    }
    newArgs[pos] := v;
    for i := pos to args.Length
      invariant newArgs[..pos] == args[..pos] && newArgs[pos] == v
      invariant newArgs[pos + 1..i + 1] == args[pos..i]
    {
      newArgs[i + 1] := args[i];
    }
    assert newArgs[..] == newArgs[..pos] + [newArgs[pos]] + newArgs[pos + 1..args.Length + 1];
    assert args[pos..args.Length] == args[pos..];
  }

  // ----- Bindings -----

  /** The original query with the bound condition in it: nothing else is bound otherwise. */
  function Expected(column: string, query: string, args: seq<Value>, v: Value): seq<Piece> {
    var p := InsertPosition(query);
    ResolveMarks(query[..p], args, 0)
    + Lits(Before(column, query)) + [Bound(v)] + Lits(Glue(query).1)
    + ResolveMarks(query[p..], args, Count(query[..p], '?'))
  }

  ghost predicate WhereFound(query: string) {
    Index(Lower(query), "where") != -1
  }

  lemma NoMarkInWord(s: string, word: string)
    requires Lower(s) == word && '?' !in word
    ensures '?' !in s
  {
    forall i | 0 <= i < |s| ensures s[i] != '?' {
      assert Lower(s)[i] == LowChar(s[i]) && Lower(s)[i] in word;
    }
  }

  /** The mark count in front of the condition, and what the argument index has to do with it. */
  lemma PositionCounts(query: string)
    ensures var p := InsertPosition(query);
            && Count(query[..p], '?') + Count(query[p..], '?') == Count(query, '?')
            && (WhereFound(query) ==> ArgPosition(query) == Count(query[..p], '?'))
            && (!WhereFound(query) ==> ArgPosition(query) == Count(query, '?'))
  {
    hide Index, FirstOf, Count;
    var p := InsertPosition(query);
    CountSplit(query, p);
    var w := Index(Lower(query), "where");
    if w != -1 {
      WordMarkless(query, w);
    }
  }

  lemma CountSplit(query: string, p: nat)
    requires p <= |query|
    ensures Count(query[..p], '?') + Count(query[p..], '?') == Count(query, '?')
  {
    assert query == query[..p] + query[p..];
    CountConcat(query[..p], query[p..], '?');
  }

  lemma WordMarkless(query: string, w: nat)
    requires MatchAt(Lower(query), w, "where")
    ensures w + 5 <= |query| && Count(query[..w + 5], '?') == Count(query[..w], '?')
  {
    assert query[..w + 5] == query[..w] + query[w..w + 5];
    CountConcat(query[..w], query[w..w + 5], '?');
    assert Lower(query[w..w + 5]) == Lower(query)[w..w + 5];
    NoMarkInWord(query[w..w + 5], "where");
    CountAbsent(query[w..w + 5], '?');
  }

  /** Text with one mark in it, between stretches of text. */
  function MarkedText(x: string, a: string, b: string, y: string): string {
    x + (a + ("?" + (b + y)))
  }

  /** Its pieces, when `a` and `b` have no marks: the mark takes the argument after those of `x`. */
  function MarkedPieces(x: string, a: string, b: string, y: string, args: seq<Value>): seq<Piece> {
    var n := Count(x, '?');
    ResolveMarks(x, args, 0) + Lits(a) + [if n < |args| then Bound(args[n]) else Dangling(n + 1)] + Lits(b)
    + ResolveMarks(y, args, n + 1)
  }

  lemma MarkBetween(x: string, a: string, b: string, y: string, args: seq<Value>)
    requires '?' !in a && '?' !in b
    ensures ResolveMarks(MarkedText(x, a, b, y), args, 0) == MarkedPieces(x, a, b, y, args)
  {
    hide ResolveMarks, Lits, Count;
    var n := Count(x, '?');
    ResolveMarksConcat(x, a + ("?" + (b + y)), args, 0);
    PlainConcat(a, "?" + (b + y), args, n);
    MarkFirst(b + y, args, n);
    PlainConcat(b, y, args, n + 1);
    Regroup(ResolveMarks(x, args, 0), Lits(a), [if n < |args| then Bound(args[n]) else Dangling(n + 1)],
            Lits(b), ResolveMarks(y, args, n + 1));
  }

  /** The text in front of the tenant's mark. */
  function Before(column: string, query: string): string {
    Glue(query).0 + column + " = "
  }

  /** The pieces of the rewritten query around the tenant's mark. */
  lemma PiecesAround(column: string, query: string, args: seq<Value>)
    requires '?' !in column
    ensures var p := InsertPosition(query);
            ResolveMarks(InjectCondition(column, query), args, 0) ==
            MarkedPieces(query[..p], Before(column, query), Glue(query).1, query[p..], args)
  {
    hide *;
    InjectText(column, query);
    GlueMarkless(column, query);
    var p := InsertPosition(query);
    MarkBetween(query[..p], Before(column, query), Glue(query).1, query[p..], args);
  }

  lemma InjectText(column: string, query: string)
    ensures var p := InsertPosition(query);
            InjectCondition(column, query) == MarkedText(query[..p], Before(column, query), Glue(query).1, query[p..])
  {
    hide InsertPosition, Glue;
    assert Condition(column) == column + " = " + "?";
  }

  lemma GlueMarkless(column: string, query: string)
    requires '?' !in column
    ensures '?' !in Before(column, query) && '?' !in Glue(query).1
  {
    hide Index;
  }

  lemma {:induction false} MarklessPieces(s: string, args: seq<Value>, k: nat)
    requires '?' !in s
    ensures ResolveMarks(s, args, k) == Lits(s)
  {
    if s != "" {
      MarklessPieces(s[1..], args, k);
      assert Lits(s) == [Lit(s[0])] + Lits(s[1..]);
    }
  }

  lemma PlainConcat(a: string, b: string, args: seq<Value>, k: nat)
    requires '?' !in a
    ensures ResolveMarks(a + b, args, k) == Lits(a) + ResolveMarks(b, args, k)
  {
    ResolveMarksConcat(a, b, args, k);
    MarklessPieces(a, args, k);
    CountAbsent(a, '?');
  }

  lemma MarkFirst(b: string, args: seq<Value>, k: nat)
    ensures ResolveMarks("?" + b, args, k) ==
            [if k < |args| then Bound(args[k]) else Dangling(k + 1)] + ResolveMarks(b, args, k + 1)
  {
    assert ("?" + b)[1..] == b;
  }

  lemma Regroup<T>(a: seq<T>, b: seq<T>, c: seq<T>, d: seq<T>, e: seq<T>)
    ensures a + (b + (c + (d + e))) == a + b + c + d + e
  {
  }

  /** The adapter keeps every binding of a query, and binds its condition to the tenant, exactly when it finds a WHERE
      or no mark stands at or after the point of insertion. */
  lemma ConditionBindsExactly(column: string, query: string, args: seq<Value>, v: Value)
    requires '?' !in column && |args| == Count(query, '?') && v !in args
    ensures ArgPosition(query) <= |args|
    ensures ResolveMarks(InjectCondition(column, query), InsertAt(args, ArgPosition(query), v), 0) ==
            Expected(column, query, args, v)
            <==> WhereFound(query) || Count(query[InsertPosition(query)..], '?') == 0
  {
    PositionCounts(query);
    hide *;
    var p, pos := InsertPosition(query), ArgPosition(query);
    PiecesAround(column, query, InsertAt(args, pos, v));
    ExpectedUnfold(column, query, args, v);
    MarkBindsExactly(query[..p], Before(column, query), Glue(query).1, query[p..], args, pos, v);
  }

  lemma ExpectedUnfold(column: string, query: string, args: seq<Value>, v: Value)
    ensures var p := InsertPosition(query);
            Expected(column, query, args, v) ==
              ExpectedAround(query[..p], Before(column, query), Glue(query).1, query[p..], args, v)
  {
    hide ResolveMarks, Lits, Count, InsertPosition, Glue, Before;
  }

  function ExpectedAround(x: string, a: string, b: string, y: string, args: seq<Value>, v: Value): seq<Piece> {
    ResolveMarks(x, args, 0) + Lits(a) + [Bound(v)] + Lits(b) + ResolveMarks(y, args, Count(x, '?'))
  }

  /** One argument put where one mark is: every other binding stays exactly when it goes after those of `x`, or when,
      put at the end, no mark follows. */
  lemma MarkBindsExactly(x: string, a: string, b: string, y: string, args: seq<Value>, pos: nat, v: Value)
    requires Count(x, '?') + Count(y, '?') == |args| && v !in args && (pos == Count(x, '?') || pos == |args|)
    ensures MarkedPieces(x, a, b, y, InsertAt(args, pos, v)) == ExpectedAround(x, a, b, y, args, v)
            <==> pos == Count(x, '?') || Count(y, '?') == 0
  {
    hide ResolveMarks, Count, Lits;
    var n, args' := Count(x, '?'), InsertAt(args, pos, v);
    MarksBefore(x, args, args', n);
    if pos == n {
      MarksAfter(y, args, args', n);
    } else {
      assert args'[n] == args[n] && args[n] in args;
      var k := |ResolveMarks(x, args, 0)| + |Lits(a)|;
      assert ExpectedAround(x, a, b, y, args, v)[k] == Bound(v);
      assert MarkedPieces(x, a, b, y, args')[k] == Bound(args[n]);
    }
  }

  /** Marks bound by the first `n` arguments do not see the others. */
  lemma MarksBefore(s: string, args: seq<Value>, args': seq<Value>, n: nat)
    requires Count(s, '?') == n <= |args| && n <= |args'| && args[..n] == args'[..n]
    ensures ResolveMarks(s, args, 0) == ResolveMarks(s, args', 0)
  {
    FirstMarks(s, args, args', 0, n);
  }

  lemma {:induction false} FirstMarks(s: string, args: seq<Value>, args': seq<Value>, k: nat, n: nat)
    requires k + Count(s, '?') <= n <= |args| && n <= |args'| && args[..n] == args'[..n]
    ensures ResolveMarks(s, args, k) == ResolveMarks(s, args', k)
  {
    if s != "" {
      if s[0] == '?' {
        assert args[..n][k] == args[k] && args'[..n][k] == args'[k];
      }
      FirstMarks(s[1..], args, args', if s[0] == '?' then k + 1 else k, n);
    }
  }

  lemma MarksAfter(s: string, args: seq<Value>, args': seq<Value>, n: nat)
    requires n <= |args| && |args'| == |args| + 1 && args'[n + 1..] == args[n..] && n + Count(s, '?') <= |args|
    ensures ResolveMarks(s, args, n) == ResolveMarks(s, args', n + 1)
  {
    ResolveMarksShift(s, args, n, args', n + 1);
  }

  // ----- INSERT -----

  /** INSERT INTO table (columns) VALUES (values)tail, in any case and spacing the adapter recognises. */
  datatype Insert = Insert(table: string, columns: string, values: string, tail: string)

  function InsertText(s: Insert): string {
    "INSERT INTO " + s.table + " (" + s.columns + ") VALUES (" + s.values + ")" + s.tail
  }

  /** Adds the tenant column and one mark, or leaves the query alone; slicing out of range panics. */
  function InjectInsert(column: string, query: string): Outcome<string> {
    var lower := Lower(query);
    var valuesPos := Index(lower, "values");
    var insertPos := Index(lower, "insert into");
    if valuesPos == -1 || insertPos == -1 then Ok(query)
    else if insertPos + 11 > valuesPos then Panic
    else
      var between := Trim(query[insertPos + 11..valuesPos]);
      var open := Index(between, "(");
      var afterValues := Trim(query[valuesPos + 6..]);
      var end := Index(afterValues, ")");
      if open == -1 || !HasPrefix(afterValues, "(") || end == -1 then Ok(query)
      else
        var columns := TrimSuffix(Trim(between[open + 1..]), ")");
        Ok(InsertText(Insert(Trim(between[..open]), columns + ", " + column, afterValues[1..end] + ", ?",
                             afterValues[end + 1..])))
  }

  /** The adapter's INSERT: the tenant argument goes last. */
  method InjectTenantIntoInsert(column: string, query: string) returns (r: Outcome<string>)
    ensures r == InjectInsert(column, query)
  {
    hide Index, Trim, Lower, TrimSuffix;
    var queryLower := Lower(query);
    var valuesPos := Index(queryLower, "values");
    if valuesPos == -1 {
      return Ok(query);
    }
    var insertPos := Index(queryLower, "insert into");
    if insertPos == -1 {
      return Ok(query);
    }
    if insertPos + 11 > valuesPos {
      return Panic;
    }
    var betweenInsertAndValues := Trim(query[insertPos + 11..valuesPos]);
    var open := Index(betweenInsertAndValues, "(");
    if open == -1 {
      return Ok(query);
    }
    var tableName := Trim(betweenInsertAndValues[..open]);
    var columnList := TrimSuffix(Trim(betweenInsertAndValues[open + 1..]), ")");
    var newColumnList := columnList + ", " + column;
    var afterValues := Trim(query[valuesPos + 6..]);
    if !HasPrefix(afterValues, "(") {
      return Ok(query);
    }
    var placeholderEnd := Index(afterValues, ")");
    if placeholderEnd == -1 {
      return Ok(query);
    }
    assert placeholderEnd != 0 by { assert afterValues[0..1] == "("; }
    var newValuePlaceholders := afterValues[1..placeholderEnd] + ", ?";
    return Ok("INSERT INTO " + tableName + " (" + newColumnList + ") VALUES (" + newValuePlaceholders + ")" +
              afterValues[placeholderEnd + 1..]);
  }

  /** A statement whose parts the adapter tells apart. */
  ghost predicate GoodInsert(s: Insert) {
    && s.table != "" && Trimmed(s.table) && '(' !in s.table
    && s.columns != "" && Trimmed(s.columns)
    && ')' !in s.values
    && (s.tail == "" || !IsSpace(s.tail[|s.tail| - 1]))
    && Index(Lower(InsertText(s)), "values") == |Front(s)|
  }

  function Front(s: Insert): string {
    "INSERT INTO" + Between(s)
  }

  function Between(s: Insert): string {
    " " + s.table + " (" + s.columns + ") "
  }

  function After(s: Insert): string {
    " (" + s.values + ")" + s.tail
  }

  /** The statement with the tenant column and its mark. */
  function WithTenant(column: string, s: Insert): Insert {
    s.(columns := s.columns + ", " + column, values := s.values + ", ?")
  }

  lemma CharIndex(a: string, c: char, b: string)
    requires c !in a
    ensures Index(a + [c] + b, [c]) == |a|
  {
    var s := a + [c] + b;
    forall i ensures MatchAt(s, i, [c]) <==> 0 <= i < |s| && s[i] == c {
      if 0 <= i < |s| {
        assert s[i..i + 1] == [s[i]];
      }
    }
    assert s[|a|] == c;
    forall i | 0 <= i < |a| ensures s[i] != c {
      assert s[i] == a[i];
    }
  }

  /** A well-formed INSERT gets the tenant column and its mark, and nothing else changes. */
  lemma InsertTextIs(column: string, s: Insert)
    requires GoodInsert(s)
    ensures InjectInsert(column, InsertText(s)) == Ok(InsertText(WithTenant(column, s)))
  {
    InsertStarts(s);
    InsertSlices(s);
    BetweenParts(s);
    AfterParts(s);
    hide InjectInsert, InsertText, Front, Between, After, Index, Lower, Trim, TrimSuffix, HasPrefix, Trimmed;
    InjectUnfold(column, InsertText(s), s);
  }

  /** The adapter's result from the parts it finds. */
  lemma InjectUnfold(column: string, query: string, s: Insert)
    requires Index(Lower(query), "values") == |Front(s)| && Index(Lower(query), "insert into") == 0
    requires 11 <= |Front(s)| && |Front(s)| + 6 <= |query|
    requires query[11..|Front(s)|] == Between(s) && query[|Front(s)| + 6..] == After(s)
    requires var between := Trim(Between(s));
             var open := Index(between, "(");
             && 0 <= open < |between| && Trim(between[..open]) == s.table
             && TrimSuffix(Trim(between[open + 1..]), ")") == s.columns
    requires var after := Trim(After(s));
             && HasPrefix(after, "(") && Index(after, ")") == |s.values| + 1 && |after| >= |s.values| + 2
             && after[1..|s.values| + 1] == s.values && after[|s.values| + 2..] == s.tail
    ensures InjectInsert(column, query) == Ok(InsertText(WithTenant(column, s)))
  {
    hide Index, Trim, Lower, TrimSuffix, HasPrefix, InsertText, Front, Between, After;
  }

  /** The text between INSERT INTO and VALUES, and the text after. */
  lemma InsertSlices(s: Insert)
    ensures 11 <= |Front(s)| && |Front(s)| + 6 <= |InsertText(s)|
    ensures InsertText(s)[11..|Front(s)|] == Between(s)
    ensures InsertText(s)[|Front(s)| + 6..] == After(s)
  {
    assert InsertText(s) == "INSERT INTO" + Between(s) + "VALUES" + After(s);
  }

  lemma InsertStarts(s: Insert)
    ensures Index(Lower(InsertText(s)), "insert into") == 0
  {
    var rest := " " + s.table + " (" + s.columns + ") VALUES (" + s.values + ")" + s.tail;
    assert InsertText(s) == "INSERT INTO" + rest;
    LowerConcat("INSERT INTO", rest);
    assert Lower("INSERT INTO") == "insert into";
    assert MatchAt("insert into" + Lower(rest), 0, "insert into");
  }

  lemma BetweenParts(s: Insert)
    requires GoodInsert(s)
    ensures var between := Trim(Between(s));
            var open := Index(between, "(");
            && 0 <= open < |between| && Trim(between[..open]) == s.table
            && TrimSuffix(Trim(between[open + 1..]), ")") == s.columns
  {
    BetweenText(s);
    assert s.table != "" && Trimmed(s.table) && '(' !in s.table && s.columns != "" && Trimmed(s.columns);
    hide *;
    PartsAround(s.table, s.columns, " ", '(', ")");
  }

  /** The text between, as table, space, parenthesis, columns and parenthesis with a space on both sides. */
  lemma BetweenText(s: Insert)
    ensures Between(s) == " " + (s.table + " " + ['('] + (s.columns + ")")) + " "
    ensures AllSpaces(" ") && '(' !in " " && !IsSpace(")"[0]) && "(" == ['('] && |" "| == |")"| == 1
  {
  }

  lemma PartsAround(t: string, c: string, sp: string, open: char, close: string)
    requires t != "" && Trimmed(t) && open !in t && c != "" && Trimmed(c) && AllSpaces(sp) && open !in sp && |sp| == 1
    requires |close| == 1 && !IsSpace(close[0])
    ensures var m := t + sp + [open] + (c + close);
            && Trim(sp + m + sp) == m && Index(m, [open]) == |t| + 1 < |m|
            && Trim(m[..|t| + 1]) == t && TrimSuffix(Trim(m[|t| + 2..]), close) == c
  {
    var m := t + sp + [open] + (c + close);
    assert m[0] == t[0] && m[|m| - 1] == close[0] && (c + close)[0] == c[0] && (c + close)[|c|] == close[0];
    assert m[..|t| + 1] == "" + t + sp && m[|t| + 2..] == "" + (c + close) + "";
    assert (c + close)[|c|..] == close && (c + close)[..|c|] == c;
    hide Index, Trim;
    TrimAround(sp, m, sp);
    CharIndex(t + sp, open, c + close);
    TrimAround("", t, sp);
    TrimAround("", c + close, "");
  }

  lemma AfterParts(s: Insert)
    requires GoodInsert(s)
    ensures var after := Trim(After(s));
            && HasPrefix(after, "(") && Index(after, ")") == |s.values| + 1 && |after| >= |s.values| + 2
            && after[1..|s.values| + 1] == s.values && after[|s.values| + 2..] == s.tail
  {
    hide Index, Trim, Lower, InsertText, Front;
    var m := "(" + s.values + ")" + s.tail;
    assert After(s) == " " + m + "";
    assert m[|m| - 1] == if s.tail == "" then ')' else s.tail[|s.tail| - 1];
    TrimAround(" ", m, "");
    assert m == ("(" + s.values) + [')'] + s.tail;
    CharIndex("(" + s.values, ')', s.tail);
    assert ")" == [')'];
    assert m[0..1] == "(";
  }

  /** The tenant's mark takes the tenant, and every other value keeps its column, exactly when no mark follows the value
      list: the argument is appended at the end. */
  lemma InsertBindsExactly(column: string, s: Insert, args: seq<Value>, v: Value)
    requires GoodInsert(s) && '?' !in s.table && '?' !in s.columns && '?' !in column
    requires |args| == Count(InsertText(s), '?') && v !in args
    ensures var s' := WithTenant(column, s);
            && InjectInsert(column, InsertText(s)) == Ok(InsertText(s'))
            && (ResolveMarks(s'.values + ")" + s.tail, args + [v], 0) == ExpectedValues(s, args, Bound(v))
                <==> Count(s.tail, '?') == 0)
  {
    var n, args' := Count(s.values, '?'), args + [v];
    MarksOfInsert(s);
    ValuePieces(column, s, args, v);
    hide GoodInsert, ResolveMarks, Count, InjectInsert, InsertText, Lits;
    InsertTextIs(column, s);
    if Count(s.tail, '?') == 0 {
      CountAbsent(s.tail, '?');
      MarklessPieces(s.tail, args', n + 1);
      MarklessPieces(s.tail, args, n);
    } else {
      assert args'[n] == args[n] && args[n] in args;
      var k := |ResolveMarks(s.values, args, 0)| + |Lits(", ")|;
      assert ExpectedValues(s, args, Bound(v))[k] == Bound(v);
      assert (ResolveMarks(s.values, args, 0) + Lits(", ") + [Bound(args[n])] + Lits(")") +
              ResolveMarks(s.tail, args', n + 1))[k]
             == Bound(args[n]);
    }
  }

  /** The value list and tail with their old bindings, and `piece` as the last value. */
  function ExpectedValues(s: Insert, args: seq<Value>, piece: Piece): seq<Piece> {
    ResolveMarks(s.values, args, 0) + Lits(", ") + [piece] + Lits(")") +
      ResolveMarks(s.tail, args, Count(s.values, '?'))
  }

  lemma ValuePieces(column: string, s: Insert, args: seq<Value>, v: Value)
    requires Count(s.values, '?') <= |args|
    ensures var n, args' := Count(s.values, '?'), args + [v];
            ResolveMarks(WithTenant(column, s).values + ")" + s.tail, args', 0) ==
            ResolveMarks(s.values, args, 0) + Lits(", ") + [Bound(args'[n])] + Lits(")") +
              ResolveMarks(s.tail, args', n + 1)
  {
    hide *;
    var n, args' := Count(s.values, '?'), args + [v];
    ValuesText(column, s);
    MarkBetween(s.values, ", ", ")", s.tail, args');
    ValuesPieces(s, args');
    MarksBefore(s.values, args, args', n);
  }

  lemma ValuesText(column: string, s: Insert)
    ensures WithTenant(column, s).values + ")" + s.tail == MarkedText(s.values, ", ", ")", s.tail)
    ensures '?' !in ", " && '?' !in ")"
  {
    assert ", ?" == ", " + "?";
    RegroupValues(s.values, ", ", "?", ")", s.tail);
  }

  lemma ValuesPieces(s: Insert, args: seq<Value>)
    requires Count(s.values, '?') < |args|
    ensures var n := Count(s.values, '?');
            MarkedPieces(s.values, ", ", ")", s.tail, args) ==
            ResolveMarks(s.values, args, 0) + Lits(", ") + [Bound(args[n])] + Lits(")") +
              ResolveMarks(s.tail, args, n + 1)
  {
    hide ResolveMarks, Lits, Count;
  }

  lemma RegroupValues<T>(a: seq<T>, b: seq<T>, c: seq<T>, d: seq<T>, e: seq<T>)
    ensures a + (b + c) + d + e == a + (b + (c + (d + e)))
  {
  }

  lemma MarksOfInsert(s: Insert)
    requires '?' !in s.table && '?' !in s.columns
    ensures Count(InsertText(s), '?') == Count(s.values, '?') + Count(s.tail, '?')
  {
    var opening := Front(s) + "VALUES (";
    assert '?' !in opening && InsertText(s) == opening + (s.values + (")" + s.tail)) by { OpeningText(s); }
    hide InsertText, Front;
    MarklessCount(opening, s.values + (")" + s.tail));
    CountConcat(s.values, ")" + s.tail, '?');
    MarklessCount(")", s.tail);
  }

  lemma OpeningText(s: Insert)
    requires '?' !in s.table && '?' !in s.columns
    ensures '?' !in Front(s) + "VALUES (" && InsertText(s) == Front(s) + "VALUES (" + (s.values + (")" + s.tail))
  {
  }

  lemma MarklessCount(a: string, b: string)
    requires '?' !in a
    ensures Count(a + b, '?') == Count(b, '?')
  {
    CountConcat(a, b, '?');
    CountAbsent(a, '?');
  }

  // ----- Arguments and marks -----

  /** The adapter finds the table, the columns and the values of an INSERT. */
  predicate PartsFound(query: string) {
    var queryLower := Lower(query);
    var valuesPos, insertPos := Index(queryLower, "values"), Index(queryLower, "insert into");
    && valuesPos != -1 && insertPos != -1 && insertPos + 11 <= valuesPos
    && Index(Trim(query[insertPos + 11..valuesPos]), "(") != -1
    && var afterValues := Trim(query[valuesPos + 6..]); HasPrefix(afterValues, "(") && Index(afterValues, ")") != -1
  }

  /** The argument is appended whatever becomes of the INSERT. When a part is missing the query comes back unchanged,
      with one argument more than it has marks. */
  lemma UnchangedInsertMiscounts(column: string, query: string, args: seq<Value>, v: Value)
    requires !PartsFound(query) && InjectInsert(column, query).Ok? && |args| == Count(query, '?')
    ensures InjectInsert(column, query) == Ok(query) && |args + [v]| == Count(query, '?') + 1
  {
    hide Index, Trim, Lower, TrimSuffix, HasPrefix, InsertText, Count;
  }

  /** A well-formed INSERT comes back with as many marks as arguments. */
  lemma InsertCounts(column: string, s: Insert, args: seq<Value>, v: Value)
    requires GoodInsert(s) && '?' !in s.table && '?' !in s.columns && '?' !in column
    requires |args| == Count(InsertText(s), '?')
    ensures InjectInsert(column, InsertText(s)) == Ok(InsertText(WithTenant(column, s)))
    ensures Count(InsertText(WithTenant(column, s)), '?') == |args + [v]|
  {
    var s' := WithTenant(column, s);
    NoMarkInColumns(column, s);
    MarksOfInsert(s);
    MarksOfInsert(s');
    OneMark();
    hide GoodInsert, Count, InjectInsert, InsertText;
    InsertTextIs(column, s);
    CountConcat(s.values, ", ?", '?');
  }

  lemma NoMarkInColumns(column: string, s: Insert)
    requires '?' !in s.columns && '?' !in column
    ensures '?' !in WithTenant(column, s).columns && WithTenant(column, s).table == s.table
    ensures WithTenant(column, s).values == s.values + ", ?" && WithTenant(column, s).tail == s.tail
  {
  }

  lemma OneMark()
    ensures Count(", ?", '?') == 1
  {
    assert ", ?"[1..] == " ?" && " ?"[1..] == "?" && "?"[1..] == "";
  }
}
