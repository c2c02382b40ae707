/** Which argument every placeholder is bound to, before and after the tenant condition is injected. */
module Bindings {
  import opened Text
  import opened Decimal
  import opened Placeholders
  import opened FromClause
  import opened Rewriter

  // ----- The injected condition -----

  function EqualsPieces(column: string, v: Value): seq<Piece> {
    Lits(column + " = ") + [Bound(v)]
  }

  /** The tenant equations with the tenant in place of their placeholders. */
  function FilterPieces(column: string, tables: seq<TableRef>, v: Value): seq<Piece> {
    if tables == [] then []
    else
      var n := |tables| - 1;
      FilterPieces(column, tables[..n], v) + Lits(if n > 0 then " AND " else "") +
      EqualsPieces(Qualifier(tables[n]) + "." + column, v)
  }

  function MarkCount(style: Style, n: nat): nat {
    if style == Question then n else 0
  }

  /** The argument an injected placeholder is bound to is the tenant. */
  ghost predicate BindsTenant(style: Style, args: seq<Value>, k: nat, position: int, v: Value) {
    match style
    case Question => k < |args| && args[k] == v
    case _ => 1 <= position <= |args| && position <= MAX_INT && args[position - 1] == v
  }

  /** All `n` injected placeholders, numbered from `first` and standing after `k` marks, are bound to the tenant. */
  ghost predicate BindsTenants(style: Style, args: seq<Value>, k: nat, first: int, n: nat, v: Value) {
    match style
    case Question => k + n <= |args| && forall i :: k <= i < k + n ==> args[i] == v
    case _ =>
      1 <= first && first - 1 + n <= |args| <= MAX_INT && forall i :: first - 1 <= i < first - 1 + n ==> args[i] == v
  }

  lemma ResolveEquals(style: Style, column: string, position: int, args: seq<Value>, k: nat, v: Value)
    requires Plain(column) && BindsTenant(style, args, k, position, v)
    ensures Resolve(style, Equals(style, column, position), args, k) == EqualsPieces(column, v)
    ensures Count(Equals(style, column, position), '?') == MarkCount(style, 1)
  {
    var left := column + " = ";
    assert Plain(left);
    ResolvePlain(style, left, args, k);
    var mark := Placeholder(style, position);
    ResolveConcat(style, left, mark, args, k);
    CountConcat(left, mark, '?');
    if style == Question {
      assert mark == "?" && mark[1..] == "";
    } else {
      ResolveSlot(style, position, args, k);
      NumeralHasNoMark(style, position);
    }
  }

  lemma NumeralHasNoMark(style: Style, n: nat)
    requires style != Question
    ensures Count(Placeholder(style, n), '?') == 0
  {
    CountAbsent(Placeholder(style, n), '?');
  }

  ghost predicate PlainTables(tables: seq<TableRef>) {
    forall t :: t in tables ==> Plain(Qualifier(t))
  }

  lemma {:induction false} ResolveFilter(style: Style, column: string, tables: seq<TableRef>, first: int,
                                         args: seq<Value>, k: nat, v: Value)
    requires Plain(column) && PlainTables(tables)
    requires BindsTenants(style, args, k, first, |tables|, v)
    ensures Resolve(style, FilterText(style, column, tables, first), args, k) == FilterPieces(column, tables, v)
    ensures Count(FilterText(style, column, tables, first), '?') == MarkCount(style, |tables|)
  {
    hide Resolve, Count, Plain, Equals, EqualsPieces, Placeholder;
    if tables == [] {
      PlainLinks();
      ResolvePlain(style, "", args, k);
    } else {
      var n := |tables| - 1;
      var t := tables[n];
      assert t in tables && Plain(Qualifier(t));
      FilterStep(style, column, t, first, n, args, k, v);
      hide BindsTenants;
      ResolveFilter(style, column, tables[..n], first, args, k, v);
      var init := FilterText(style, column, tables[..n], first);
      hide FilterText, FilterPieces;
      LinkFilter(style, init, if n > 0 then " AND " else "", Equals(style, Qualifier(t) + "." + column, first + n),
                 args, k);
    }
  }

  /** One more equation: the first `n` are bound, and so is number `n`. */
  lemma FilterStep(style: Style, column: string, t: TableRef, first: int, n: nat, args: seq<Value>, k: nat, v: Value)
    requires Plain(column) && Plain(Qualifier(t))
    requires BindsTenants(style, args, k, first, n + 1, v)
    ensures BindsTenants(style, args, k, first, n, v)
    ensures var eq := Equals(style, Qualifier(t) + "." + column, first + n);
            && Resolve(style, eq, args, k + MarkCount(style, n)) == EqualsPieces(Qualifier(t) + "." + column, v)
            && Count(eq, '?') == MarkCount(style, 1)
  {
    hide Resolve, Count, Equals, EqualsPieces;
    assert Plain(Qualifier(t) + "." + column);
    ResolveEquals(style, Qualifier(t) + "." + column, first + n, args, k + MarkCount(style, n), v);
  }

  lemma LinkCuts(init: string, link: string, eq: string)
    requires link == " AND " || (link == "" && init == "")
    ensures Plain(link) && SafeCut(init, link) && SafeCut(init + link, eq)
  {
  }

  lemma LinkFilter(style: Style, init: string, link: string, eq: string, args: seq<Value>, k: nat)
    requires link == " AND " || (link == "" && init == "")
    ensures Resolve(style, init + link + eq, args, k) ==
            Resolve(style, init, args, k) + Lits(link) + Resolve(style, eq, args, k + Count(init, '?'))
    ensures Count(init + link + eq, '?') == Count(init, '?') + Count(eq, '?')
  {
    hide *;
    LinkCuts(init, link, eq);
    PlainBetween(style, init, link, eq, args, k);
  }

  lemma PlainBetween(style: Style, x: string, l: string, y: string, args: seq<Value>, k: nat)
    requires Plain(l) && SafeCut(x, l) && SafeCut(x + l, y)
    ensures Resolve(style, x + l + y, args, k) ==
            Resolve(style, x, args, k) + Lits(l) + Resolve(style, y, args, k + Count(x, '?'))
    ensures Count(x + l + y, '?') == Count(x, '?') + Count(y, '?')
  {
    hide *;
    ResolvePlain(style, l, args, k + Count(x, '?'));
    ResolveConcat(style, x, l, args, k);
    CountConcat(x, l, '?');
    ResolveConcat(style, x + l, y, args, k);
    CountConcat(x + l, y, '?');
  }

  // ----- Statements part by part -----

  /** A statement with its arguments in place: what the database executes. */
  datatype Parts = Parts(head: seq<Piece>, cond: Option<seq<Piece>>, tail: seq<Piece>)

  function PartsOf(style: Style, s: Statement, args: seq<Value>): Parts {
    var n := Count(s.head, '?');
    Parts(Resolve(style, s.head, args, 0),
          match s.cond case None => None case Some(c) => Some(Resolve(style, c, args, n)),
          Resolve(style, s.tail, args, n + Count(WhereText(s.cond), '?')))
  }

  /** The parts are the resolved text of the whole statement. */
  lemma PartsAreText(style: Style, s: Statement, args: seq<Value>)
    requires s.tail == "" || s.tail[0] == ' '
    ensures var p := PartsOf(style, s, args);
            Resolve(style, StatementText(s), args, 0) ==
            p.head + (match p.cond case None => [] case Some(c) => Lits(" WHERE ") + c) + p.tail
  {
    hide Resolve, Count, Plain, Scan;
    var n := Count(s.head, '?');
    var w := WhereText(s.cond);
    assert w + s.tail == "" || (w + s.tail)[0] == ' ';
    ResolveConcat(style, s.head, w + s.tail, args, 0);
    ResolveConcat(style, w, s.tail, args, n);
    PlainLinks();
    match s.cond {
      case None => ResolvePlain(style, "", args, n);
      case Some(c) =>
        ResolvePlain(style, " WHERE ", args, n);
        ResolveConcat(style, " WHERE ", c, args, n);
    }
  }

  lemma PlainLinks()
    ensures Plain("") && Plain(" WHERE ") && Plain(" AND (") && Plain(")") && Plain(" AND ")
  {
  }

  /** The arguments of the rewritten statement: under `$N` the new ones come last, under `?` they come
      where the new marks come. */
  ghost predicate ArgsExtended(style: Style, args: seq<Value>, args': seq<Value>, vs: seq<Value>, n: nat) {
    match style
    case Question => n <= |args| && args' == args[..n] + vs + args[n..]
    case _ => args' == args + vs
  }

  /** Text before the insertion point keeps its bindings. */
  lemma ResolveBefore(style: Style, a: string, args: seq<Value>, args': seq<Value>, vs: seq<Value>, n: nat, k: nat)
    requires ArgsExtended(style, args, args', vs, n)
    requires style != Question ==> MaxSlot(Scan(style, a)) <= |args|
    requires style == Question ==> k + Count(a, '?') <= n
    ensures Resolve(style, a, args', k) == Resolve(style, a, args, k)
  {
    if style == Question {
      ResolveMarksPrefix(a, args, args', n, k);
    } else {
      ResolveNumberedExtend(style, a, args, vs, k, k);
    }
  }

  lemma {:induction false} ResolveMarksPrefix(s: string, args: seq<Value>, args': seq<Value>, n: nat, k: nat)
    requires n <= |args| && n <= |args'| && args[..n] == args'[..n]
    requires k + Count(s, '?') <= n
    ensures ResolveMarks(s, args, k) == ResolveMarks(s, args', k)
  {
    if s != "" {
      if s[0] == '?' {
        assert args[k] == args[..n][k] == args'[..n][k] == args'[k];
      }
      ResolveMarksPrefix(s[1..], args, args', n, if s[0] == '?' then k + 1 else k);
    }
  }

  /** Text after the insertion point keeps its bindings: its marks have moved on by the number of new marks. */
  lemma ResolveAfter(style: Style, b: string, args: seq<Value>, args': seq<Value>, vs: seq<Value>, n: nat, k: nat)
    requires ArgsExtended(style, args, args', vs, n)
    requires style != Question ==> MaxSlot(Scan(style, b)) <= |args|
    requires style == Question ==> n <= k && k + Count(b, '?') <= |args|
    ensures Resolve(style, b, args', k + MarkCount(style, |vs|)) == Resolve(style, b, args, k)
  {
    if style == Question {
      assert args'[k + |vs|..] == args[n..][k - n..] == args[k..];
      ResolveMarksShift(b, args, k, args', k + |vs|);
    } else {
      ResolveNumberedExtend(style, b, args, vs, k, k);
    }
  }

  lemma SlotsOfParts(style: Style, a: string, b: string)
    requires SafeCut(a, b)
    ensures MaxSlot(Scan(style, a)) <= MaxSlot(Scan(style, a + b))
            && MaxSlot(Scan(style, b)) <= MaxSlot(Scan(style, a + b))
  {
    hide Scan;
    ScanConcat(style, a, b);
    MaxSlotConcat(Scan(style, a), Scan(style, b));
  }

  /** No part refers to more arguments than the whole. */
  lemma StatementSlots(style: Style, s: Statement)
    requires s.tail == "" || s.tail[0] == ' '
    ensures var m := MaxSlot(Scan(style, StatementText(s)));
            && MaxSlot(Scan(style, s.head)) <= m && MaxSlot(Scan(style, s.tail)) <= m
            && (s.cond.Some? ==> MaxSlot(Scan(style, s.cond.value)) <= m)
  {
    hide Scan;
    var w := WhereText(s.cond);
    assert w + s.tail == "" || (w + s.tail)[0] == ' ';
    SlotsOfParts(style, s.head, w + s.tail);
    SlotsOfParts(style, w, s.tail);
    if s.cond.Some? {
      SlotsOfParts(style, " WHERE ", s.cond.value);
    }
  }

  lemma StatementMarks(s: Statement)
    ensures Count(StatementText(s), '?') == Count(s.head, '?') + Count(WhereText(s.cond), '?') + Count(s.tail, '?')
    ensures s.cond.Some? ==> Count(WhereText(s.cond), '?') == Count(s.cond.value, '?')
  {
    CountConcat(s.head, WhereText(s.cond) + s.tail, '?');
    CountConcat(WhereText(s.cond), s.tail, '?');
    if s.cond.Some? {
      CountConcat(" WHERE ", s.cond.value, '?');
      CountAbsent(" WHERE ", '?');
    }
  }

  lemma SpacesAreBlank(style: Style, s: string, args: seq<Value>, k: nat)
    requires AllSpaces(s)
    ensures Plain(s) && Resolve(style, s, args, k) == Lits(s) && Count(s, '?') == 0
  {
    assert Plain(s);
    ResolvePlain(style, s, args, k);
  }

  lemma SpacesCut(l: string, t: string)
    requires AllSpaces(l)
    ensures SafeCut(l, t)
  {
  }

  lemma SpacesCutAfter(t: string, r: string)
    requires AllSpaces(r)
    ensures SafeCut(t, r)
  {
  }

  /** The resolved condition is its trimmed part between blanks. */
  lemma ResolveTrimmed(style: Style, c: string, args: seq<Value>, k: nat) returns (l: string, r: string)
    ensures AllSpaces(l) && AllSpaces(r)
    ensures Resolve(style, c, args, k) == Lits(l) + Resolve(style, Trim(c), args, k) + Lits(r)
    ensures Count(Trim(c), '?') == Count(c, '?')
  {
    hide Resolve, Count, Plain, Scan, Trim;
    l, r := TrimParts(c);
    var m := Trim(c);
    assert c == l + (m + r);
    SpacesCut(l, m + r);
    SpacesCutAfter(m, r);
    SpacesAreBlank(style, l, args, k);
    ResolveConcat(style, l, m + r, args, k);
    ResolveConcat(style, m, r, args, k);
    SpacesAreBlank(style, r, args, k + Count(m, '?'));
    CountConcat(l, m + r, '?');
    CountConcat(m, r, '?');
  }

  lemma TrimSlots(style: Style, c: string)
    ensures MaxSlot(Scan(style, Trim(c))) <= MaxSlot(Scan(style, c))
  {
    hide Scan, MaxSlot, Trim;
    var l, r := TrimParts(c);
    var m := Trim(c);
    assert c == l + (m + r);
    SpacesCut(l, m + r);
    SpacesCutAfter(m, r);
    SlotsOfParts(style, l, m + r);
    SlotsOfParts(style, m, r);
  }

  /** The pieces of `filter AND ( c )`. */
  function ConjoinedPieces(filter: seq<Piece>, cond: Option<seq<Piece>>): seq<Piece> {
    match cond
    case None => filter
    case Some(c) => filter + Lits(" AND (") + c + Lits(")")
  }

  lemma ResolveConjoined(style: Style, filter: string, c: string, args: seq<Value>, k: nat)
    ensures Resolve(style, filter + " AND (" + c + ")", args, k) ==
            ConjoinedPieces(Resolve(style, filter, args, k), Some(Resolve(style, c, args, k + Count(filter, '?'))))
    ensures Count(filter + " AND (" + c + ")", '?') == Count(filter, '?') + Count(c, '?')
  {
    hide Resolve, Count, Plain, Scan;
    PlainLinks();
    assert ")"[0] == ')' && " AND ("[0] == ' ' && (filter + " AND (")[|filter| + 5] == '(';
    var n := k + Count(filter, '?');
    ResolvePlain(style, " AND (", args, n);
    ResolvePlain(style, ")", args, n + Count(c, '?'));
    CountConcat(filter, " AND (", '?');
    CountConcat(filter + " AND (", c, '?');
    CountConcat(filter + " AND (" + c, ")", '?');
    ResolveConcat(style, filter, " AND (", args, k);
    ResolveConcat(style, filter + " AND (", c, args, k);
    ResolveConcat(style, filter + " AND (" + c, ")", args, k);
  }

  /** Binding preservation. When the new arguments stand where the new marks stand, every placeholder of the
      original statement keeps its value and the injected ones are bound to the new values. */
  lemma BindingsPreserved(style: Style, s: Statement, filter: string, pieces: seq<Piece>,
                          args: seq<Value>, args': seq<Value>, vs: seq<Value>)
    requires s.tail == "" || s.tail[0] == ' '
    requires ArgsExtended(style, args, args', vs, Count(s.head, '?'))
    requires |args| == ExistingPlaceholders(style, StatementText(s)) && CountsAll(style, StatementText(s))
    requires Resolve(style, filter, args', Count(s.head, '?')) == pieces
    requires Count(filter, '?') == MarkCount(style, |vs|)
    ensures var old_, new_ := PartsOf(style, s, args), PartsOf(style, WithFilter(s, filter), args');
            && new_.head == old_.head && new_.tail == old_.tail
            && new_.cond == Some(ConjoinedPieces(pieces,
                 match s.cond case None => None
                 case Some(c) => Some(Resolve(style, Trim(c), args, Count(s.head, '?')))))
  {
    hide *;
    var n := Count(s.head, '?');
    StatementSlots(style, s);
    StatementMarks(s);
    Existing(style, StatementText(s));
    PartsOfFields(style, s, args);
    PartsOfWithFilter(style, s, filter, args');
    MarkCounts(vs);
    QuestionRoom(style, args, args', vs, n);
    ResolveBefore(style, s.head, args, args', vs, n, 0);
    if s.cond.None? {
      NoCondition(s, filter);
      ResolveAfter(style, s.tail, args, args', vs, n, n);
      NoConjunct(pieces);
    } else {
      var c := s.cond.value;
      var l, r := ResolveTrimmed(style, c, args, n);
      TrimSlots(style, c);
      ResolveAfter(style, Trim(c), args, args', vs, n, n);
      ResolveConjoined(style, filter, Trim(c), args', n);
      ResolveAfter(style, s.tail, args, args', vs, n, n + Count(c, '?'));
      SomeCondition(s, filter, c);
    }
  }

  lemma Existing(style: Style, q: string)
    ensures style != Question && CountsAll(style, q) ==> ExistingPlaceholders(style, q) == MaxSlot(Scan(style, q))
    ensures style == Question ==> ExistingPlaceholders(style, q) == Count(q, '?')
  {
  }

  lemma MarkCounts(vs: seq<Value>)
    ensures MarkCount(Question, |vs|) == |vs| && MarkCount(Dollar, |vs|) == 0 && MarkCount(Colon, |vs|) == 0
  {
  }

  lemma QuestionRoom(style: Style, args: seq<Value>, args': seq<Value>, vs: seq<Value>, n: nat)
    requires ArgsExtended(style, args, args', vs, n)
    ensures style == Question ==> n <= |args|
  {
  }

  lemma NoCondition(s: Statement, filter: string)
    requires s.cond.None?
    ensures Conjoined(filter, s.cond) == filter && WhereText(s.cond) == "" && Count(WhereText(s.cond), '?') == 0
  {
  }

  lemma SomeCondition(s: Statement, filter: string, c: string)
    requires s.cond == Some(c)
    ensures Conjoined(filter, s.cond) == filter + " AND (" + Trim(c) + ")"
  {
  }

  lemma NoConjunct(pieces: seq<Piece>)
    ensures ConjoinedPieces(pieces, None) == pieces
  {
  }

  lemma PartsOfFields(style: Style, s: Statement, args: seq<Value>)
    ensures var p, n := PartsOf(style, s, args), Count(s.head, '?');
            && p.head == Resolve(style, s.head, args, 0)
            && p.tail == Resolve(style, s.tail, args, n + Count(WhereText(s.cond), '?'))
            && p.cond == match s.cond case None => None case Some(c) => Some(Resolve(style, c, args, n))
  {
  }

  lemma PartsOfWithFilter(style: Style, s: Statement, filter: string, args: seq<Value>)
    ensures var p, n := PartsOf(style, WithFilter(s, filter), args), Count(s.head, '?');
            && p.head == Resolve(style, s.head, args, 0)
            && p.cond == Some(Resolve(style, Conjoined(filter, s.cond), args, n))
            && p.tail == Resolve(style, s.tail, args, n + Count(Conjoined(filter, s.cond), '?'))
  {
    hide Resolve, Count, Conjoined;
    StatementMarks(WithFilter(s, filter));
  }
}
