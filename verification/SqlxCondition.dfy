/** What the sqlx adapter's condition does: the text it writes, and when the rewritten condition holds. */
module SqlxConditions {
  import opened Text
  import opened Placeholders
  import opened Keywords
  import opened Conditions
  import opened Relations
  import opened SqlxAdapter
  import SelectMeaning

  // ----- The text -----

  /** The search word does not start inside `a`, even when it would run into what follows. */
  lemma NotInside(a: string, b: string, i: int)
    requires Absent("where", a) && i < |a|
    ensures !MatchAt(a + ("where" + b), i, "where")
  {
    var u := a + ("where" + b);
    MatchConcat(a, "where" + b, i, "where");
    assert u[|a|] == 'w';
    if MatchAt(u, i, "where") {
      WordCrossing(u, i, "where", |a|);
    }
  }

  lemma WhereStarts(head: string, where_: string, rest: string)
    requires Absent("where", Lower(head)) && Lower(where_) == "where"
    ensures Index(Lower(head + where_ + rest), "where") == |head|
  {
    LowerConcat(head + where_, rest);
    LowerConcat(head, where_);
    var a, b := Lower(head), Lower(rest);
    LowerLength(head);
    hide Lower;
    var u := a + ("where" + b);
    assert Lower(head + where_ + rest) == u;
    forall i | i < |a| ensures !MatchAt(u, i, "where") {
      NotInside(a, b, i);
    }
    assert MatchAt(u, |a|, "where");
  }

  /** The condition goes right behind the first "where", in any letter case, and ends in AND; the argument goes behind
      those of the marks before it. */
  lemma WhereRewritten(column: string, head: string, where_: string, c: string)
    requires Absent("where", Lower(head)) && Lower(where_) == "where"
    ensures InjectCondition(column, head + where_ + " " + c) == head + where_ + " " + (column + " = ? AND " + c)
    ensures ArgPosition(head + where_ + " " + c) == Count(head, '?')
  {
    hide *;
    var query := head + where_ + (" " + c);
    WhereStarts(head, where_, " " + c);
    LowerLength(where_);
    CutBehind(head, where_, " " + c);
    InjectedBehind(column, query, |head|);
    WhereText(column, head, where_, c);
  }

  lemma CutBehind(head: string, where_: string, rest: string)
    requires |where_| == 5
    ensures var query := head + where_ + rest;
            && |head| + 5 <= |query| && query[..|head|] == head
            && query[..|head| + 5] == head + where_ && query[|head| + 5..] == rest
  {
  }

  lemma InjectedBehind(column: string, query: string, w: nat)
    requires Index(Lower(query), "where") == w && w + 5 <= |query|
    ensures InjectCondition(column, query) == query[..w + 5] + " " + (column + " = ?") + " AND" + query[w + 5..]
    ensures ArgPosition(query) == Count(query[..w], '?')
  {
    hide Index, Lower, Count, FirstOf;
  }

  lemma WhereText(column: string, head: string, where_: string, c: string)
    ensures head + where_ + (" " + c) == head + where_ + " " + c
    ensures head + where_ + " " + (column + " = ?") + " AND" + (" " + c) ==
            head + where_ + " " + (column + " = ? AND " + c)
  {
  }

  lemma LowerLength(s: string)
    ensures |Lower(s)| == |s|
  {
  }

  /** Without a "where" a WHERE clause goes in front of the first of five keywords, and the argument goes last. */
  lemma TailRewritten(column: string, head: string, tail: string)
    requires Absent("where", Lower(head + tail))
    requires tail == "" || exists kw :: kw in ["order by", "limit", "offset", "group by", "having"] &&
                                        MatchAt(Lower(head + tail), |head|, kw)
    requires forall kw, i :: kw in ["order by", "limit", "offset", "group by", "having"] && i < |head| ==>
                               !MatchAt(Lower(head + tail), i, kw)
    ensures InjectCondition(column, head + tail) == head + " WHERE " + (column + " = ?") + " " + tail
    ensures ArgPosition(head + tail) == Count(head + tail, '?')
  {
    var query, u := head + tail, Lower(head + tail);
    assert Index(u, "where") == -1;
    var first := FirstOf(u, TailKeywords());
    assert |u| == |head| + |tail|;
    if tail == "" {
      assert head + tail == head;
    }
    hide Lower, Index, FirstOf;
    assert first.0 == |head|;
    assert query[..|head|] == head && query[|head|..] == tail;
  }

  // ----- The meaning -----

  /** The pieces of the condition that the adapter writes in front of `c`. */
  function BarePieces(column: string, v: Value, c: seq<Piece>): seq<Piece> {
    Lits(column + " = ") + [Bound(v)] + Lits(" AND ") + c
  }

  /** With the argument in its place, the rewritten query is the original one with the bound condition in front. */
  lemma WherePieces(column: string, head: string, where_: string, c: string, tail: string, v: Value, args: seq<Value>)
    requires Absent("where", Lower(head)) && Lower(where_) == "where" && '?' !in column
    requires |args| == Count(head, '?') + Count(c, '?') + Count(tail, '?')
    ensures var query, n := head + where_ + " " + (c + tail), Count(head, '?');
            && ArgPosition(query) <= |args|
            && ResolveMarks(InjectCondition(column, query), InsertAt(args, ArgPosition(query), v), 0) ==
               ResolveMarks(head, args, 0) + Lits(where_ + " ") + BarePieces(column, v, ResolveMarks(c, args, n))
               + ResolveMarks(tail, args, n + Count(c, '?'))
  {
    hide *;
    WhereRewritten(column, head, where_, c + tail);
    NoMarkInWhere(where_);
    var n, front, glue := Count(head, '?'), where_ + " " + (column + " = "), " AND ";
    var args' := InsertAt(args, n, v);
    InsertedArgs(args, n, v);
    NoMarkInFront(where_, column);
    MarkedShifted(head, front, glue, c, tail, v, args);
    AsMarked(head, where_, column, c + tail);
    Around(ResolveMarks(head, args, 0), column, v, where_, ResolveMarks(c, args, n),
           ResolveMarks(tail, args, n + Count(c, '?')));
  }

  lemma NoMarkInFront(where_: string, column: string)
    requires '?' !in where_ && '?' !in column
    ensures '?' !in where_ + " " + (column + " = ") && '?' !in " AND "
  {
  }

  /** The pieces around a mark whose argument is put in: the others stay. */
  lemma MarkedShifted(head: string, front: string, glue: string, c: string, tail: string, v: Value, args: seq<Value>)
    requires '?' !in front && '?' !in glue
    requires |args| == Count(head, '?') + Count(c, '?') + Count(tail, '?')
    ensures var n := Count(head, '?');
            ResolveMarks(MarkedText(head, front, glue, c + tail), InsertAt(args, n, v), 0) ==
            ResolveMarks(head, args, 0) + Lits(front) + [Bound(v)] + Lits(glue)
            + (ResolveMarks(c, args, n) + ResolveMarks(tail, args, n + Count(c, '?')))
  {
    hide *;
    var n := Count(head, '?');
    var args' := InsertAt(args, n, v);
    InsertedArgs(args, n, v);
    MarkBetween(head, front, glue, c + tail, args');
    MarkedIs(head, front, glue, c + tail, args');
    ResolveMarksConcat(c, tail, args', n + 1);
    MarksBefore(head, args, args', n);
    ResolveMarksShift(c, args, n, args', n + 1);
    ResolveMarksShift(tail, args, n + Count(c, '?'), args', n + 1 + Count(c, '?'));
  }

  lemma AsMarked(head: string, where_: string, column: string, rest: string)
    ensures head + where_ + " " + (column + " = ? AND " + rest) ==
            MarkedText(head, where_ + " " + (column + " = "), " AND ", rest)
  {
    assert column + " = ? AND " + rest == column + " = " + ("?" + (" AND " + rest));
  }

  lemma MarkedIs(x: string, a: string, b: string, y: string, args: seq<Value>)
    requires Count(x, '?') < |args|
    ensures MarkedPieces(x, a, b, y, args) ==
            ResolveMarks(x, args, 0) + Lits(a) + [Bound(args[Count(x, '?')])] + Lits(b)
            + ResolveMarks(y, args, Count(x, '?') + 1)
  {
    hide ResolveMarks, Count;
  }

  lemma NoMarkInWhere(where_: string)
    requires Lower(where_) == "where"
    ensures '?' !in where_
  {
    forall i | 0 <= i < |where_| ensures where_[i] != '?' {
      assert Lower(where_)[i] in "where";
    }
  }

  lemma InsertedArgs(args: seq<Value>, n: nat, v: Value)
    requires n <= |args|
    ensures var args' := InsertAt(args, n, v);
            args'[n] == v && args'[..n] == args[..n] && forall k :: n <= k <= |args| ==> args'[k + 1..] == args[k..]
  {
  }

  lemma Around(head: seq<Piece>, column: string, v: Value, where_: string, c: seq<Piece>, tail: seq<Piece>)
    ensures head + Lits(where_ + " " + (column + " = ")) + [Bound(v)] + Lits(" AND ") + (c + tail) ==
            head + Lits(where_ + " ") + BarePieces(column, v, c) + tail
  {
    assert Lits(where_ + " " + (column + " = ")) == Lits(where_ + " ") + Lits(column + " = ");
  }

  /** The condition as it is written, without parentheses around `c`: a row satisfies it exactly when it carries the
      tenant and satisfies `c`, or satisfies what follows the first top-level OR of `c`. */
  lemma BareConditionHolds(column: string, v: Value, c: seq<Piece>, b: Binding, sense: AtomSense)
    requires GoodColumn(column) && SelectMeaning.NotOperator(column) && v != Null && Parse(c).Some?
    ensures Holds(Some(BarePieces(column, v, c)), [b], sense) <==>
            || (Owned(b.row, column, v) && Holds(Some(c), [b], sense))
            || (AfterOr(Lex(c)).Some? &&
                Eval(AfterOr(Lex(c)).value, words => AtomTruth([b], words, sense)) == True)
  {
    var atom := (words: seq<Lexeme>) => AtomTruth([b], words, sense);
    BareLex(column, v, c);
    BareAtomTruth(b, column, v, sense);
    hide AtomTruth, Owned, ParseAnd, ParseOr, Lex, GoodColumn, TenantAtom, BarePieces;
    assert Equation(TenantAtom(column, v)) by { TenantEquation(column, v); }
    BareConjunction(TenantAtom(column, v), Lex(c), atom);
    if AfterOr(Lex(c)).Some? && Eval(AfterOr(Lex(c)).value, atom) == True {
      AfterOrHolds(Lex(c), atom);
    }
    HoldsUnfold(c, b, sense);
    HoldsUnfold(BarePieces(column, v, c), b, sense);
  }

  lemma HoldsUnfold(c: seq<Piece>, b: Binding, sense: AtomSense)
    requires ParseOr(Lex(c)).Some? && ParseOr(Lex(c)).value.1 == []
    ensures Parse(c) == Some(ParseOr(Lex(c)).value.0)
    ensures Holds(Some(c), [b], sense) <==>
            Eval(ParseOr(Lex(c)).value.0, words => AtomTruth([b], words, sense)) == True
  {
    hide Lex, ParseOr, AtomTruth, Eval;
  }

  lemma TenantEquation(column: string, v: Value)
    ensures Equation(TenantAtom(column, v))
  {
  }

  lemma BareLex(column: string, v: Value, c: seq<Piece>)
    requires GoodColumn(column) && SelectMeaning.NotOperator(column)
    ensures Lex(BarePieces(column, v, c)) == TenantAtom(column, v) + [AndWord] + Lex(c)
  {
    SelectMeaning.LexEquals(column, v);
    SelectMeaning.LexAnd();
    var e, a := Lits(column + " = ") + [Bound(v)], Lits(" AND ");
    assert a[0] == Lit(' ') && a[|a| - 1] == Lit(' ') && (e + a)[|e + a| - 1] == Lit(' ');
    hide Lex, TenantAtom;
    LexConcat(e, a);
    LexConcat(e + a, c);
  }

  // ----- INSERT -----

  /** "values" does not start inside the text in front of it. */
  lemma ValuesStart(front: string, rest: string)
    requires Absent("values", Lower(front))
    ensures Index(Lower(front + ("VALUES" + rest)), "values") == |front|
  {
    LowerConcat(front, "VALUES" + rest);
    LowerConcat("VALUES", rest);
    LowerLength(front);
    var a, b := Lower(front), Lower(rest);
    assert Lower("VALUES") == "values";
    hide Lower;
    var u := a + ("values" + b);
    assert Lower(front + ("VALUES" + rest)) == u;
    assert u[|a|] == 'v';
    forall i | i < |a| ensures !MatchAt(u, i, "values") {
      MatchConcat(a, "values" + b, i, "values");
      if MatchAt(u, i, "values") {
        WordCrossing(u, i, "values", |a|);
      }
    }
    assert u[|a|..|a| + 6] == "values";
    assert MatchAt(u, |a|, "values");
  }

  /** The column goes last in the list, and its mark last among the values. */
  lemma InsertSpelled(column: string, table: string, columns: string, values: string, tail: string)
    requires table != "" && Trimmed(table) && '(' !in table && columns != "" && Trimmed(columns) && ')' !in values
    requires tail == "" || !IsSpace(tail[|tail| - 1])
    requires Absent("values", Lower("INSERT INTO " + table + " (" + columns + ") "))
    ensures InjectInsert(column, "INSERT INTO " + table + " (" + columns + ") VALUES (" + values + ")" + tail) ==
            Ok("INSERT INTO " + table + " (" + (columns + ", " + column) + ") VALUES (" + (values + ", ?") + ")" + tail)
  {
    hide *;
    var s := Insert(table, columns, values, tail);
    var front := "INSERT INTO " + table + " (" + columns + ") ";
    ValuesStart(front, " (" + values + ")" + tail);
    InsertTexts(column, s, front);
    GoodText(s, front);
    InsertTextIs(column, s);
  }

  lemma InsertTexts(column: string, s: Insert, front: string)
    requires front == "INSERT INTO " + s.table + " (" + s.columns + ") "
    ensures InsertText(s) == front + ("VALUES" + (" (" + s.values + ")" + s.tail)) && front == Front(s)
    ensures InsertText(s) == "INSERT INTO " + s.table + " (" + s.columns + ") VALUES (" + s.values + ")" + s.tail
    ensures InsertText(WithTenant(column, s)) ==
            "INSERT INTO " + s.table + " (" + (s.columns + ", " + column) + ") VALUES (" + (s.values + ", ?") + ")" +
            s.tail
  {
  }

  lemma GoodText(s: Insert, front: string)
    requires s.table != "" && Trimmed(s.table) && '(' !in s.table && s.columns != "" && Trimmed(s.columns)
    requires ')' !in s.values && (s.tail == "" || !IsSpace(s.tail[|s.tail| - 1]))
    requires front == Front(s) && Index(Lower(InsertText(s)), "values") == |front|
    ensures GoodInsert(s)
  {
    hide Index, Lower, InsertText, Trimmed, Front;
  }

  /** An INSERT that lacks INSERT INTO or VALUES comes back unchanged; one with VALUES in front of the end of INSERT
      INTO is a panic, and nothing else is. */
  lemma InsertPanicsIff(column: string, query: string)
    ensures Absent("values", Lower(query)) || Absent("insert into", Lower(query)) ==>
              InjectInsert(column, query) == Ok(query)
    ensures var i, j := Index(Lower(query), "insert into"), Index(Lower(query), "values");
            InjectInsert(column, query) == Panic <==> i != -1 && j != -1 && j < i + |"insert into"|
  {
    var i, j := Index(Lower(query), "insert into"), Index(Lower(query), "values");
    assert Absent("values", Lower(query)) ==> j == -1;
    assert Absent("insert into", Lower(query)) ==> i == -1;
    hide Index, Lower, Trim, TrimSuffix, HasPrefix, Absent;
  }
}
