/** The letter case in which a statement is written does not matter: its upper-case form is rewritten alike. */
module LetterCase {
  import opened Text
  import opened Decimal
  import opened Placeholders
  import opened Keywords
  import opened FromClause
  import opened Rewriter

  // ----- Words -----

  lemma UpperPart(s: string, i: nat, j: nat)
    requires i <= j <= |s|
    ensures Upper(s)[i..j] == Upper(s[i..j])
  {
  }

  lemma {:induction false} WordLengthUpper(s: string)
    ensures WordLength(Upper(s)) == WordLength(s)
  {
    if s != "" && !IsSpace(s[0]) {
      WordLengthUpper(s[1..]);
      assert Upper(s)[1..] == Upper(s[1..]);
    }
  }

  function Uppers(ws: seq<string>): (r: seq<string>)
    ensures |r| == |ws|
  {
    seq(|ws|, i requires 0 <= i < |ws| => Upper(ws[i]))
  }

  lemma {:induction false} FieldsUpper(s: string)
    ensures Fields(Upper(s)) == Uppers(Fields(s))
    decreases |s|
  {
    var u := Upper(s);
    if s != "" && IsSpace(s[0]) {
      FieldsUpper(s[1..]);
      assert u[1..] == Upper(s[1..]);
    } else if s != "" {
      WordLengthUpper(s);
      var n := WordLength(s);
      FieldsUpper(s[n..]);
      assert u[..n] == Upper(s[..n]) && u[n..] == Upper(s[n..]);
      assert Fields(s) == [s[..n]] + Fields(s[n..]);
    }
  }

  lemma TrimCommaUpper(s: string)
    ensures TrimSuffix(Upper(s), ",") == Upper(TrimSuffix(s, ","))
  {
    if s != "" {
      var n := |s| - 1;
      assert Upper(s)[n..] == [UpChar(s[n])] && s[n..] == [s[n]];
    }
  }

  function UpperRef(t: TableRef): TableRef {
    TableRef(Upper(t.name), Upper(t.alias))
  }

  /** The reference that the words of a text make. */
  function RefOf(ws: seq<string>): TableRef {
    if |ws| == 0 then TableRef("", "")
    else if |ws| == 1 then TableRef(ws[0], "")
    else if EqualFold(ws[1], "AS") && |ws| >= 3 then TableRef(ws[0], ws[2])
    else TableRef(ws[0], ws[1])
  }

  lemma ParseIsRefOf(s: string)
    ensures ParseTableRef(s) == RefOf(Fields(TrimSuffix(Trim(s), ",")))
  {
    hide Fields, TrimSuffix, Trim, EqualFold;
  }

  lemma RefOfUpper(ws: seq<string>)
    ensures RefOf(Uppers(ws)) == UpperRef(RefOf(ws))
  {
    assert Upper("") == "";
    if |ws| >= 2 {
      UpperTwice(ws[1]);
    }
    hide Upper, Lower;
  }

  lemma ParseUpper(s: string)
    ensures ParseTableRef(Upper(s)) == UpperRef(ParseTableRef(s))
  {
    hide *;
    TrimUpper(s);
    TrimCommaUpper(Trim(s));
    FieldsUpper(TrimSuffix(Trim(s), ","));
    RefOfUpper(Fields(TrimSuffix(Trim(s), ",")));
    ParseIsRefOf(s);
    ParseIsRefOf(Upper(s));
  }

  // ----- The FROM clause -----

  /** Where the cuts behind a join keyword are, in the upper-case text. */
  lemma TakeIs(after: string, u: string) returns (end: nat, rest: nat)
    requires "" !in JoinKeywords() && u == Upper(after)
    ensures end <= |after| == |u| && rest <= |after|
    ensures var on := Index(u, " ON ");
            && end == (var next := FirstOf(u, JoinKeywords()).0; if on != -1 && on < next then on else next)
            && rest == if on != -1 && on <= |u| then on + FirstOf(u[on..], JoinKeywords()).0 else end
    ensures TakeTable(after) == (ParseTableRef(Trim(after[..end])), after[rest..])
  {
    UpperLength(after);
    hide ParseTableRef, Trim, Index, FirstOf, JoinKeywords, Upper;
    var on, next := Index(u, " ON "), FirstOf(u, JoinKeywords()).0;
    assert on == -1 || MatchAt(u, on, " ON ");
    end := if on != -1 && on < next then on else next;
    rest := if on != -1 then on + FirstOf(u[on..], JoinKeywords()).0 else end;
  }

  lemma UpperLength(s: string)
    ensures |Upper(s)| == |s|
  {
  }

  lemma CutUpper(s: string, i: nat)
    requires i <= |s|
    ensures |Upper(s)| == |s| && Upper(s)[..i] == Upper(s[..i]) && Upper(s)[i..] == Upper(s[i..])
  {
  }

  lemma TakeUpper(after: string)
    requires "" !in JoinKeywords()
    ensures TakeTable(Upper(after)) == (UpperRef(TakeTable(after).0), Upper(TakeTable(after).1))
  {
    hide *;
    UpperTwice(after);
    UpperLength(after);
    var u := Upper(after);
    var end, rest := TakeIs(after, u);
    var end', rest' := TakeIs(u, u);
    CutUpper(after, end);
    CutUpper(after, rest);
    TrimUpper(after[..end]);
    ParseUpper(Trim(after[..end]));
  }

  function UpperRefs(ts: seq<TableRef>): (r: seq<TableRef>)
    ensures |r| == |ts|
  {
    seq(|ts|, i requires 0 <= i < |ts| => UpperRef(ts[i]))
  }

  lemma UpperName(t: TableRef)
    ensures UpperRef(t).name == "" <==> t.name == ""
    ensures UpperRefs(if t.name != "" then [t] else []) == if t.name != "" then [UpperRef(t)] else []
  {
  }

  lemma NextIs(rem: string, u: string)
    requires u == Upper(rem)
    ensures "" !in JoinKeywords()
    ensures var (pos, kw) := FirstOf(u, JoinKeywords());
            && (kw == "" ==> NextJoin(rem) == None)
            && (kw != "" ==> pos + |kw| <= |rem| == |u| && NextJoin(rem) == Some(TakeTable(rem[pos + |kw|..])))
  {
    JoinKeywordsNonEmpty();
    UpperLength(rem);
    hide Upper, FirstOf, TakeTable, JoinKeywords;
  }

  lemma NextUpper(rem: string)
    ensures match NextJoin(rem)
            case None => NextJoin(Upper(rem)) == None
            case Some((t, rest)) => NextJoin(Upper(rem)) == Some((UpperRef(t), Upper(rest)))
  {
    hide *;
    UpperTwice(rem);
    var u := Upper(rem);
    NextIs(rem, u);
    NextIs(u, u);
    var (pos, kw) := FirstOf(u, JoinKeywords());
    if kw != "" {
      var n := pos + |kw|;
      UpperPart(rem, n, |rem|);
      TakeUpper(rem[n..]);
      assert rem[n..|rem|] == rem[n..] && u[n..|rem|] == u[n..];
    }
  }

  lemma JoinedIs(rem: string)
    ensures match NextJoin(rem)
            case None => JoinedTables(rem) == []
            case Some((table, rest)) =>
              JoinedTables(rem) == (if table.name != "" then [table] else []) + JoinedTables(rest)
  {
    hide NextJoin;
  }

  lemma {:induction false} JoinedUpper(rem: string)
    ensures JoinedTables(Upper(rem)) == UpperRefs(JoinedTables(rem))
    decreases |rem|
  {
    hide *;
    NextUpper(rem);
    JoinedIs(rem);
    JoinedIs(Upper(rem));
    if NextJoin(rem).Some? {
      var (table, rest) := NextJoin(rem).value;
      UpperName(table);
      JoinedUpper(rest);
      UpperRefsConcat(if table.name != "" then [table] else [], JoinedTables(rest));
    } else {
      assert UpperRefs([]) == [];
    }
  }

  lemma MainUpper(section: string)
    requires "" !in JoinKeywords()
    ensures var p := FirstOf(Upper(section), JoinKeywords()).0;
            && p <= |section| && FirstOf(Upper(Upper(section)), JoinKeywords()).0 == p
            && ParseTableRef(Trim(Upper(section)[..p])) == UpperRef(ParseTableRef(Trim(section[..p])))
  {
    UpperTwice(section);
    var p := FirstOf(Upper(section), JoinKeywords()).0;
    assert p <= |section|;
    hide *;
    UpperPart(section, 0, p);
    assert section[0..p] == section[..p] && Upper(section)[0..p] == Upper(section)[..p];
    TrimUpper(section[..p]);
    ParseUpper(Trim(section[..p]));
  }

  lemma ExtractIs(query: string, from: int, end: nat)
    requires "" !in JoinKeywords() && from == Index(Upper(query), " FROM ") != -1
    requires from <= |Upper(query)| == |query| && end == SectionEnd(Upper(query), from) <= |query|
    ensures end < from + 6 ==> ExtractTables(query) == Panic
    ensures end >= from + 6 ==>
              var section := query[from + 6..end];
              var p := FirstOf(Upper(section), JoinKeywords()).0;
              && p <= |section|
              && var main := ParseTableRef(Trim(section[..p]));
                 ExtractTables(query) == Ok((if main.name != "" then [main] else []) + JoinedTables(section))
  {
    hide Upper, FirstOf, SectionEnd, JoinedTables, ParseTableRef, Trim, Index, JoinKeywords;
    if end >= from + 6 {
      UpperLength(query[from + 6..end]);
    }
  }

  /** The same tables are found, up to letter case. */
  lemma ExtractUpper(query: string)
    ensures match ExtractTables(query)
            case Ok(ts) => ExtractTables(Upper(query)) == Ok(UpperRefs(ts))
            case _ => ExtractTables(Upper(query)) == ExtractTables(query)
  {
    JoinKeywordsNonEmpty();
    UpperTwice(query);
    UpperLength(query);
    var u := Upper(query);
    var from := Index(u, " FROM ");
    if from == -1 {
      hide Upper, Index;
      assert UpperRefs([]) == [];
    } else {
      assert MatchAt(u, from, " FROM ");
      var end := SectionEnd(u, from);
      hide *;
      ExtractIs(query, from, end);
      ExtractIs(u, from, end);
      if end >= from + 6 {
        var section := query[from + 6..end];
        UpperPart(query, from + 6, end);
        MainUpper(section);
        var main := ParseTableRef(Trim(section[..FirstOf(Upper(section), JoinKeywords()).0]));
        UpperName(main);
        JoinedUpper(section);
        UpperRefsConcat(if main.name != "" then [main] else [], JoinedTables(section));
      }
    }
  }

  lemma UpperRefsConcat(a: seq<TableRef>, b: seq<TableRef>)
    ensures UpperRefs(a + b) == UpperRefs(a) + UpperRefs(b)
  {
  }

  lemma TenantUpper(config: Config, name: string)
    ensures IsTenantTable(config, Upper(name)) <==> IsTenantTable(config, name)
  {
    UpperTwice(name);
    hide Upper, Lower;
  }

  lemma {:induction false} TenantTablesUpper(config: Config, ts: seq<TableRef>)
    ensures TenantTablesOf(config, UpperRefs(ts)) == UpperRefs(TenantTablesOf(config, ts))
  {
    if ts != [] {
      var n := |ts| - 1;
      TenantTablesUpper(config, ts[..n]);
      TenantUpper(config, ts[n].name);
      assert UpperRefs(ts)[..n] == UpperRefs(ts[..n]);
      hide IsTenantTable;
    }
  }

  // ----- Placeholders -----

  lemma {:induction false} CountUpper(s: string)
    ensures Count(Upper(s), '?') == Count(s, '?')
  {
    if s != "" {
      CountUpper(s[1..]);
      assert Upper(s)[1..] == Upper(s[1..]);
    }
  }

  lemma {:induction false} DigitRunUpper(s: string, i: nat)
    requires i <= |s|
    ensures DigitRun(Upper(s), i) == DigitRun(s, i)
    decreases |s| - i
  {
    if i < |s| && IsDigit(s[i]) {
      DigitRunUpper(s, i + 1);
    }
  }

  function UpperTokens(ts: seq<Token>): (r: seq<Token>)
    ensures |r| == |ts|
  {
    seq(|ts|, i requires 0 <= i < |ts| => if ts[i].Char? then Char(UpChar(ts[i].c)) else ts[i])
  }

  lemma DigitsUpper(s: string, i: nat, e: nat)
    requires i <= e <= |s| && AllDigits(s[i..e])
    ensures Upper(s)[i..e] == s[i..e]
  {
    forall k | i <= k < e ensures Upper(s)[k] == s[k] {
      assert s[i..e][k - i] == s[k];
    }
  }

  lemma TokenizeIs(s: string)
    ensures s == "" ==> Tokenize(s) == []
    ensures s != "" && SlotAt(s, 0) ==>
              1 <= DigitRun(s, 1) <= |s| && AllDigits(s[1..DigitRun(s, 1)])
              && Tokenize(s) == [Slot(Atoi(s[1..DigitRun(s, 1)]))] + Tokenize(s[DigitRun(s, 1)..])
    ensures s != "" && !SlotAt(s, 0) ==> Tokenize(s) == [Char(s[0])] + Tokenize(s[1..])
  {
    hide Atoi;
  }

  lemma SlotUpper(s: string)
    ensures SlotAt(Upper(s), 0) <==> SlotAt(s, 0)
  {
  }

  lemma TokensCons(t: Token, ts: seq<Token>)
    ensures UpperTokens([t] + ts) == UpperTokens([t]) + UpperTokens(ts)
    ensures UpperTokens([]) == []
    ensures t.Slot? ==> UpperTokens([t]) == [t]
    ensures t.Char? ==> UpperTokens([t]) == [Char(UpChar(t.c))]
  {
  }

  lemma FirstUpper(s: string)
    requires s != ""
    ensures |Upper(s)| == |s| && Upper(s)[0] == UpChar(s[0])
  {
  }

  lemma {:induction false} TokenizeUpper(s: string)
    ensures Tokenize(Upper(s)) == UpperTokens(Tokenize(s))
    decreases |s|
  {
    hide *;
    var u := Upper(s);
    TokenizeIs(s);
    TokenizeIs(u);
    SlotUpper(s);
    if s == "" {
      UpperLength(s);
      TokensCons(Slot(0), []);
    } else {
      FirstUpper(s);
      if SlotAt(s, 0) {
        var e := DigitRun(s, 1);
        DigitRunUpper(s, 1);
        DigitsUpper(s, 1, e);
        CutUpper(s, e);
        TokenizeUpper(s[e..]);
        TokensCons(Slot(Atoi(s[1..e])), Tokenize(s[e..]));
      } else {
        CutUpper(s, 1);
        TokenizeUpper(s[1..]);
        TokensCons(Char(s[0]), Tokenize(s[1..]));
      }
    }
  }

  lemma {:induction false} MaxSlotUpper(ts: seq<Token>)
    ensures MaxSlot(UpperTokens(ts)) == MaxSlot(ts)
  {
    if ts != [] {
      var n := |ts| - 1;
      MaxSlotUpper(ts[..n]);
      assert UpperTokens(ts)[..n] == UpperTokens(ts[..n]);
    }
  }

  lemma ExistingUpper(style: Style, query: string)
    ensures ExistingPlaceholders(style, Upper(query)) == ExistingPlaceholders(style, query)
  {
    CountUpper(query);
    TokenizeUpper(query);
    MaxSlotUpper(Tokenize(query));
    hide Upper, Count, Tokenize, MaxSlot;
  }

  // ----- The statement -----

  lemma SameConcat(a: string, a': string, b: string, b': string)
    requires Upper(a) == Upper(a') && Upper(b) == Upper(b')
    ensures Upper(a + b) == Upper(a' + b')
  {
    UpperConcat(a, b);
    UpperConcat(a', b');
  }

  lemma EquationUpper(style: Style, column: string, t: TableRef, position: int)
    ensures Upper(Equals(style, Qualifier(UpperRef(t)) + "." + column, position)) ==
            Upper(Equals(style, Qualifier(t) + "." + column, position))
  {
    hide Placeholder;
    UpperTwice(t.name);
    UpperTwice(t.alias);
    var q, q', p := Qualifier(t), Qualifier(UpperRef(t)), Placeholder(style, position);
    assert Upper(q) == Upper(q');
    hide Upper, Qualifier;
    SameConcat(q', q, ".", ".");
    SameConcat(q' + ".", q + ".", column, column);
    SameConcat(q' + "." + column, q + "." + column, " = ", " = ");
    SameConcat(q' + "." + column + " = ", q + "." + column + " = ", p, p);
  }

  lemma {:induction false} FilterUpper(style: Style, column: string, ts: seq<TableRef>, first: int)
    ensures Upper(FilterText(style, column, UpperRefs(ts), first)) == Upper(FilterText(style, column, ts, first))
  {
    if ts != [] {
      var n := |ts| - 1;
      FilterUpper(style, column, ts[..n], first);
      assert UpperRefs(ts)[..n] == UpperRefs(ts[..n]);
      EquationUpper(style, column, ts[n], first + n);
      hide Upper, Equals, Qualifier, UpperRef;
      var and := if n > 0 then " AND " else "";
      var f, f' := FilterText(style, column, ts[..n], first), FilterText(style, column, UpperRefs(ts[..n]), first);
      SameConcat(f', f, and, and);
      SameConcat(f' + and, f + and, Equals(style, Qualifier(UpperRef(ts[n])) + "." + column, first + n),
                 Equals(style, Qualifier(ts[n]) + "." + column, first + n));
    }
  }

  /** The same filter up to letter case is put at the same place. */
  lemma InjectWhereUpper(query: string, filter: string, filter': string, ends: seq<string>, trimBefore: bool)
    requires "" !in ends && Upper(filter') == Upper(filter)
    ensures Upper(InjectWhere(Upper(query), filter', ends, trimBefore)) ==
            Upper(InjectWhere(query, filter, ends, trimBefore))
  {
    UpperTwice(query);
    var u := Upper(query);
    var w := Index(u, " WHERE ");
    if w != -1 {
      var e := w + 7 + FirstOf(u[w + 7..], ends).0;
      UpperPart(query, 0, w + 7);
      UpperPart(query, w + 7, e);
      UpperPart(query, e, |query|);
      TrimUpper(query[w + 7..e]);
      hide *;
      WhereSome(query, filter, ends, trimBefore, w, e);
      WhereSome(u, filter', ends, trimBefore, w, e);
      var c := Trim(query[w + 7..e]);
      SameParts(query[..w + 7], u[..w + 7], filter, filter', c, Trim(u[w + 7..e]), query[e..], u[e..]);
    } else {
      var p := FirstOf(u, ends).0;
      UpperPart(query, 0, p);
      UpperPart(query, p, |query|);
      TrimUpper(query[..p]);
      UpperTwice(query[..p]);
      UpperTwice(Trim(query[..p]));
      UpperTwice(query[p..]);
      var a, a' := if trimBefore then Trim(query[..p]) else query[..p], if trimBefore then Trim(u[..p]) else u[..p];
      assert Upper(a') == Upper(a) && Upper(u[p..]) == Upper(query[p..]);
      hide *;
      WhereNone(query, filter, ends, trimBefore, p);
      WhereNone(u, filter', ends, trimBefore, p);
      SameConcat(a', a, " WHERE ", " WHERE ");
      SameConcat(a' + " WHERE ", a + " WHERE ", filter', filter);
      SameConcat(a' + " WHERE " + filter', a + " WHERE " + filter, u[p..], query[p..]);
    }
  }

  lemma SameParts(a: string, a': string, f: string, f': string, c: string, c': string, b: string, b': string)
    requires Upper(f') == Upper(f) && a' == Upper(a) && c' == Upper(c) && b' == Upper(b)
    ensures Upper(a' + f' + " AND (" + c' + ")" + b') == Upper(a + f + " AND (" + c + ")" + b)
  {
    UpperTwice(a);
    UpperTwice(b);
    UpperTwice(c);
    hide Upper;
    SameConcat(a', a, f', f);
    SameConcat(a' + f', a + f, " AND (", " AND (");
    SameConcat(a' + f' + " AND (", a + f + " AND (", c', c);
    SameConcat(a' + f' + " AND (" + c', a + f + " AND (" + c, ")", ")");
    SameConcat(a' + f' + " AND (" + c' + ")", a + f + " AND (" + c + ")", b', b);
  }

  lemma WhereSome(query: string, filter: string, ends: seq<string>, trimBefore: bool, w: nat, e: nat)
    requires "" !in ends && Index(Upper(query), " WHERE ") == w && w + 7 <= e <= |query| == |Upper(query)|
    requires e == w + 7 + FirstOf(Upper(query)[w + 7..], ends).0
    ensures InjectWhere(query, filter, ends, trimBefore) ==
            query[..w + 7] + filter + " AND (" + Trim(query[w + 7..e]) + ")" + query[e..]
  {
    hide Index, FirstOf, Trim, Upper;
  }

  lemma WhereNone(query: string, filter: string, ends: seq<string>, trimBefore: bool, p: nat)
    requires "" !in ends && Index(Upper(query), " WHERE ") == -1 && p <= |query|
    requires p == FirstOf(Upper(query), ends).0
    ensures InjectWhere(query, filter, ends, trimBefore) ==
            (if trimBefore then Trim(query[..p]) else query[..p]) + " WHERE " + filter + query[p..]
  {
    hide Index, FirstOf, Trim, Upper;
  }

  /** The same arguments, and the same text up to letter case. */
  ghost predicate SameRewriting(r: Outcome<Rewritten>, r': Outcome<Rewritten>) {
    match r
    case Ok((text, args)) => r'.Ok? && r'.value.1 == args && Upper(r'.value.0) == Upper(text)
    case _ => r' == r
  }

  lemma SelectUpper(config: Config, style: Style, query: string, v: Value, args: seq<Value>)
    ensures SameRewriting(InjectSelect(config, style, query, v, args),
                          InjectSelect(config, style, Upper(query), v, args))
  {
    EndsNonEmpty();
    ExtractUpper(query);
    ExistingUpper(style, query);
    UpperTwice(query);
    hide Upper, ExtractTables, TenantTablesOf, InjectWhere, FilterText, ExistingPlaceholders, SelectEnds, UpperRefs;
    if ExtractTables(query).Ok? {
      var ts := ExtractTables(query).value;
      TenantTablesUpper(config, ts);
      var found, n := TenantTablesOf(config, ts), ExistingPlaceholders(style, query) + 1;
      assert |UpperRefs(found)| == |found|;
      FilterUpper(style, config.tenantColumn, found, n);
      InjectWhereUpper(query, FilterText(style, config.tenantColumn, found, n),
                       FilterText(style, config.tenantColumn, UpperRefs(found), n), SelectEnds(), true);
    }
  }

  lemma MutationUpper(config: Config, style: Style, query: string, v: Value, args: seq<Value>)
    ensures SameRewriting(InjectUpdate(config, style, query, v, args),
                          InjectUpdate(config, style, Upper(query), v, args))
    ensures SameRewriting(InjectDelete(config, style, query, v, args),
                          InjectDelete(config, style, Upper(query), v, args))
  {
    EndsNonEmpty();
    ExistingUpper(style, query);
    SetCountUpper(query);
    var n := ExistingPlaceholders(style, query) + 1;
    hide Upper, InjectWhere, ExistingPlaceholders, MutationEnds, SetArgCount, Placeholder;
    InjectWhereUpper(query, Equals(style, config.tenantColumn, n), Equals(style, config.tenantColumn, n),
                     MutationEnds(), false);
  }

  lemma SetCountUpper(query: string)
    ensures SetArgCount(Upper(query)) == SetArgCount(query)
  {
    UpperTwice(query);
    var w := Index(Upper(query), " WHERE ");
    CountUpper(query);
    if w != -1 {
      UpperPart(query, 0, w);
      CountUpper(query[..w]);
    }
    hide Upper, Index, Count;
  }

  /** Queries that differ in letter case only are rewritten alike: the same tables are found, the same tenant equations
      put at the same places, and the same arguments passed. */
  lemma LetterCaseDoesNotMatter(config: Config, style: Style, query: string, query': string, v: Value, args: seq<Value>)
    requires Upper(query') == Upper(query)
    ensures SameRewriting(InjectSelect(config, style, query, v, args), InjectSelect(config, style, query', v, args))
    ensures SameRewriting(InjectUpdate(config, style, query, v, args), InjectUpdate(config, style, query', v, args))
    ensures SameRewriting(InjectDelete(config, style, query, v, args), InjectDelete(config, style, query', v, args))
  {
    SelectUpper(config, style, query, v, args);
    SelectUpper(config, style, query', v, args);
    MutationUpper(config, style, query, v, args);
    MutationUpper(config, style, query', v, args);
    hide InjectSelect, InjectUpdate, InjectDelete, Upper;
  }
}
