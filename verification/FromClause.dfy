/** The tables of a SELECT: extraction from the FROM clause, and the clauses from which it finds every table. */
module FromClause {
  import opened Text
  import opened Keywords

  /** A table reference; the alias is empty when there is none. */
  datatype TableRef = TableRef(name: string, alias: string)

  function JoinKeywords(): (kws: seq<string>)
    ensures |kws| == 9
  {
    [" LEFT OUTER JOIN ", " RIGHT OUTER JOIN ", " FULL OUTER JOIN ", " LEFT JOIN ", " RIGHT JOIN ",
    " INNER JOIN ", " CROSS JOIN ", " NATURAL JOIN ", " JOIN "]
  }

  function JoinOpeningWords(): seq<string> {
    ["LEFT", "RIGHT", "FULL", "LEFT", "RIGHT", "INNER", "CROSS", "NATURAL", "JOIN"]
  }

  function EndMarkers(): seq<string> {
    [" ORDER BY ", " GROUP BY ", " LIMIT ", " HAVING ", " UNION "]
  }

  function EndOpeningWords(): seq<string> {
    ["ORDER", "GROUP", "LIMIT", "HAVING", "UNION"]
  }

  function EqualFold(a: string, b: string): bool {
    Lower(a) == Lower(b)
  }

  /** "table", "table alias" or "table AS alias"; an empty name when there is no word. */
  function ParseTableRef(ref: string): TableRef {
    var parts := Fields(TrimSuffix(Trim(ref), ","));
    if |parts| == 0 then TableRef("", "")
    else if |parts| == 1 then TableRef(parts[0], "")
    else if EqualFold(parts[1], "AS") && |parts| >= 3 then TableRef(parts[0], parts[2])
    else TableRef(parts[0], parts[1])
  }

  lemma JoinKeywordsNonEmpty()
    ensures "" !in JoinKeywords() && "" !in EndMarkers()
  {
  }

  /** The table reference at the front of the text after a JOIN keyword, and the text left to look at: it starts
      at the first JOIN after the first ON, or at the next JOIN when there is no ON. */
  function TakeTable(after: string): (r: (TableRef, string))
    requires "" !in JoinKeywords()
    ensures |r.1| <= |after|
  {
    var u := Upper(after);
    var on := Index(u, " ON ");
    var nextJoin := FirstOf(u, JoinKeywords()).0;
    var tableEnd := if on != -1 && on < nextJoin then on else nextJoin;
    (ParseTableRef(Trim(after[..tableEnd])),
     if on != -1 then after[on + FirstOf(u[on..], JoinKeywords()).0..] else after[tableEnd..])
  }

  /** One round of the extraction loop on `rem`, or None when no JOIN keyword is left. */
  function NextJoin(rem: string): (r: Option<(TableRef, string)>)
    ensures r.Some? ==> |r.value.1| < |rem|
  {
    JoinKeywordsNonEmpty();
    var (pos, kw) := FirstOf(Upper(rem), JoinKeywords());
    if kw == "" then None else Some(TakeTable(rem[pos + |kw|..]))
  }

  function JoinedTables(rem: string): seq<TableRef>
    decreases |rem|
  {
    match NextJoin(rem)
    case None => []
    case Some((table, rest)) => (if table.name != "" then [table] else []) + JoinedTables(rest)
  }

  /** The end of the table references: WHERE anywhere in the query, or a marker after FROM. */
  function SectionEnd(u: string, from: nat): (e: nat)
    requires from <= |u|
    ensures e <= |u|
  {
    JoinKeywordsNonEmpty();
    var where_ := Index(u, " WHERE ");
    var marker := from + FirstOf(u[from..], EndMarkers()).0;
    if where_ != -1 && where_ < marker then where_ else marker
  }

  /** All table references of a query, main table first. The slice of the FROM section panics when its end
      lies before its start. */
  function ExtractTables(query: string): Outcome<seq<TableRef>> {
    JoinKeywordsNonEmpty();
    var u := Upper(query);
    var from := Index(u, " FROM ");
    if from == -1 then Ok([])
    else
      var end := SectionEnd(u, from);
      if end < from + 6 then Panic
      else
        var section := query[from + 6..end];
        var main := ParseTableRef(Trim(section[..FirstOf(Upper(section), JoinKeywords()).0]));
        Ok((if main.name != "" then [main] else []) + JoinedTables(section))
  }

  /** Slicing stays in bounds exactly when neither WHERE nor an end marker starts before ` FROM ` ends. */
  lemma ExtractPanics(query: string)
    ensures var u := Upper(query);
            var from := Index(u, " FROM ");
            ExtractTables(query).Panic? <==>
            from != -1 &&
            ((exists w :: w < from + 6 && MatchAt(u, w, " WHERE ")) ||
             (exists m, k :: from <= m < from + 6 && 0 <= k < |EndMarkers()| && MatchAt(u, m, EndMarkers()[k])))
  {
    hide Trim, ParseTableRef, JoinedTables, JoinKeywords, EndMarkers, Upper, MatchAt;
    JoinKeywordsNonEmpty();
    var u := Upper(query);
    var from := Index(u, " FROM ");
    if from != -1 {
      assert from + 6 <= |u| by { MatchInside(u, from, " FROM "); }
      FirstEndMarker(u, from);
      EarlyWhere(u, from + 6);
    }
  }

  lemma MatchInside(u: string, i: int, p: string)
    requires MatchAt(u, i, p)
    ensures 0 <= i && i + |p| <= |u|
  {
  }

  lemma EarlyWhere(u: string, end: nat)
    ensures var w := Index(u, " WHERE ");
            w != -1 && w < end <==> exists w :: w < end && MatchAt(u, w, " WHERE ")
  {
    hide MatchAt, Index;
  }

  /** The first end marker at or after `from` starts before `from + 6` exactly when some end marker does. */
  lemma FirstEndMarker(u: string, from: nat)
    requires from + 6 <= |u| && "" !in EndMarkers()
    ensures FirstOf(u[from..], EndMarkers()).0 < 6 <==>
            exists m, k :: from <= m < from + 6 && 0 <= k < |EndMarkers()| && MatchAt(u, m, EndMarkers()[k])
  {
    hide EndMarkers, MatchAt;
    var r := FirstOf(u[from..], EndMarkers());
    assert u == u[..from] + u[from..];
    if r.0 < 6 {
      var k :| 0 <= k < |EndMarkers()| && EndMarkers()[k] == r.1;
      MatchConcat(u[..from], u[from..], from + r.0, EndMarkers()[k]);
    }
    forall m, k | from <= m < from + r.0 && 0 <= k < |EndMarkers()| ensures !MatchAt(u, m, EndMarkers()[k]) {
      MatchConcat(u[..from], u[from..], m, EndMarkers()[k]);
      assert EndMarkers()[k] in EndMarkers();
    }
  }

  lemma OnInside(u: string)
    ensures -1 <= Index(u, " ON ") <= |u|
  {
    hide Index;
  }

  /** One round of the extraction loop, past its JOIN keyword. */
  method TakeJoin(afterJoin: string, afterJoinUpper: string)
    returns (joinedTable: TableRef, remaining: string, remainingUpper: string)
    requires "" !in JoinKeywords() && afterJoinUpper == Upper(afterJoin)
    ensures (joinedTable, remaining) == TakeTable(afterJoin) && remainingUpper == Upper(remaining)
    ensures |remaining| <= |afterJoin|
  {
    hide ParseTableRef, Trim, JoinKeywords, Index, FirstOf, Upper, MatchAt;
    var onPos := Index(afterJoinUpper, " ON ");
    assert -1 <= onPos <= |afterJoin| by { OnInside(afterJoinUpper); }
    var tableEndPos, _ := FindFirst(afterJoinUpper, JoinKeywords());
    if onPos != -1 && onPos < tableEndPos {
      tableEndPos := onPos;
    }
    joinedTable := ParseTableRef(Trim(afterJoin[..tableEndPos]));
    if onPos != -1 {
      var onConditionEnd, _ := FindFirst(afterJoinUpper[onPos..], JoinKeywords());
      onConditionEnd := onPos + onConditionEnd;
      remaining := afterJoin[onConditionEnd..];
      remainingUpper := afterJoinUpper[onConditionEnd..];
    } else {
      remaining := afterJoin[tableEndPos..];
      remainingUpper := afterJoinUpper[tableEndPos..];
    }
  }

  lemma FromInside(u: string)
    ensures -1 <= Index(u, " FROM ") <= |u| && -1 <= Index(u, " WHERE ") <= |u|
  {
    hide Index;
  }

  lemma UpperSlice(s: string, i: nat, j: nat)
    requires i <= j <= |s|
    ensures Upper(s)[i..j] == Upper(s[i..j])
  {
  }

  /** The extraction loop: every round moves `remaining` past one JOIN keyword. */
  method ExtractAllTables(query: string) returns (r: Outcome<seq<TableRef>>)
    ensures r == ExtractTables(query)
  {
    JoinKeywordsNonEmpty();
    hide ParseTableRef, Index, FirstOf, Trim, Upper, MatchAt, JoinKeywords, EndMarkers, JoinedTables;
    var upper := Upper(query);
    var fromPos := Index(upper, " FROM ");
    if fromPos == -1 {
      return Ok([]);
    }
    FromInside(upper);
    var wherePos := Index(upper, " WHERE ");
    var endPos, _ := FindFirst(upper[fromPos..], EndMarkers());
    endPos := fromPos + endPos;
    if wherePos != -1 && wherePos < endPos {
      endPos := wherePos;
    }
    assert endPos == SectionEnd(upper, fromPos);
    hide SectionEnd;
    if endPos < fromPos + 6 {
      return Panic;
    }
    var fromSection := query[fromPos + 6..endPos];
    var fromSectionUpper := upper[fromPos + 6..endPos];
    UpperSlice(query, fromPos + 6, endPos);
    var tables := CollectTables(fromSection, fromSectionUpper);
    r := Ok(tables);
  }

  method CollectTables(fromSection: string, fromSectionUpper: string) returns (tables: seq<TableRef>)
    requires "" !in JoinKeywords()
    requires fromSectionUpper == Upper(fromSection)
    ensures var main := ParseTableRef(Trim(fromSection[..FirstOf(Upper(fromSection), JoinKeywords()).0]));
            tables == (if main.name != "" then [main] else []) + JoinedTables(fromSection)
  {
    hide ParseTableRef, Index, FirstOf, Trim, TakeTable, JoinKeywords;
    var firstJoinPos, _ := FindFirst(fromSectionUpper, JoinKeywords());
    tables := [];
    var mainTable := ParseTableRef(Trim(fromSection[..firstJoinPos]));
    if mainTable.name != "" {
      tables := tables + [mainTable];
    }
    ghost var main := tables;
    var remaining, remainingUpper := fromSection, fromSectionUpper;
    while true
      invariant remainingUpper == Upper(remaining)
      invariant main + JoinedTables(fromSection) == tables + JoinedTables(remaining)
      decreases |remaining|
    {
      var nextJoinPos, nextJoinKeyword := FindFirst(remainingUpper, JoinKeywords());
      if nextJoinKeyword == "" {
        assert JoinedTables(remaining) == [];
        break;
      }
      var joinedTable;
      joinedTable, remaining, remainingUpper := TakeJoin(
        remaining[nextJoinPos + |nextJoinKeyword|..], remainingUpper[nextJoinPos + |nextJoinKeyword|..]);
      if joinedTable.name != "" {
        tables := tables + [joinedTable];
      }
    }
    assert tables + [] == tables;
  }

  // ----- FROM clauses as they are written -----

  /** An index into JoinKeywords(). */
  type JoinKind = k: nat | k < 9 witness 0

  /** How a reference is written: "table alias", "table AS alias", or some other text that reads as the reference. */
  datatype RefForm = Short | WithAs | Verbatim(text: string)

  datatype JoinClause = JoinClause(kind: JoinKind, table: TableRef, form: RefForm, on: Option<string>)

  datatype Clause = Clause(main: TableRef, form: RefForm, joins: seq<JoinClause>)

  function Reserved(): seq<string> {
    ["LEFT", "RIGHT", "FULL", "INNER", "CROSS", "NATURAL", "JOIN", "ON", "FROM", "WHERE",
    "ORDER", "GROUP", "LIMIT", "HAVING", "UNION"]
  }

  function RefText(t: TableRef, form: RefForm): string {
    if form.Verbatim? then form.text
    else if t.alias == "" then t.name
    else if form.WithAs? then t.name + " " + ("AS" + " " + t.alias)
    else t.name + " " + t.alias
  }

  function OnText(on: Option<string>): string {
    match on
    case None => ""
    case Some(c) => " ON " + c
  }

  function JoinsText(js: seq<JoinClause>): string
  {
    if js == [] then ""
    else JoinKeywords()[js[0].kind] + (RefText(js[0].table, js[0].form) + (OnText(js[0].on) + JoinsText(js[1..])))
  }

  function ClauseText(c: Clause): string
  {
    RefText(c.main, c.form) + JoinsText(c.joins)
  }

  /** An identifier: a word that is not reserved and does not end in a comma. */
  ghost predicate Identifier(s: string) {
    s != "" && NoSpaces(s) && s[|s| - 1] != ',' && Upper(s) !in Reserved()
  }

  /** A text without reserved words that the parser reads as `t`. */
  ghost predicate ReadsAs(text: string, t: TableRef) {
    text != "" && Trimmed(text) && CleanOf(text, Reserved()) && ParseTableRef(text) == t && t.name != ""
  }

  ghost predicate GoodRef(t: TableRef, form: RefForm) {
    match form
    case Verbatim(text) => ReadsAs(text, t)
    case _ => Identifier(t.name) && (t.alias == "" || Identifier(t.alias))
  }

  ghost predicate GoodJoin(j: JoinClause) {
    GoodRef(j.table, j.form) && (j.on.Some? ==> CleanOf(j.on.value, Reserved()))
  }

  ghost predicate GoodClause(c: Clause) {
    GoodRef(c.main, c.form) && forall j :: j in c.joins ==> GoodJoin(j)
  }

  function AfterFirstOn(js: seq<JoinClause>): (r: seq<JoinClause>)
    ensures |r| <= |js|
    ensures forall j :: j in r ==> j in js
  {
    if js == [] then [] else if js[0].on.Some? then js[1..] else AfterFirstOn(js[1..])
  }

  predicate HasOn(js: seq<JoinClause>) {
    exists j :: j in js && j.on.Some?
  }

  /** The joins the extraction sees: a join without ON hides all joins up to and including the next one with ON. */
  function Kept(js: seq<JoinClause>): seq<TableRef>
    decreases |js|
  {
    if js == [] then []
    else if js[0].on.Some? || !HasOn(js[1..]) then [js[0].table] + Kept(js[1..])
    else [js[0].table] + Kept(AfterFirstOn(js[1..]))
  }

  function Tables(js: seq<JoinClause>): (r: seq<TableRef>)
    ensures |r| == |js|
  {
    if js == [] then [] else [js[0].table] + Tables(js[1..])
  }

  /** No join without ON stands before a join with ON. */
  ghost predicate OnFirst(js: seq<JoinClause>) {
    forall i, k :: 0 <= i < k < |js| && js[i].on.None? ==> js[k].on.None?
  }

  lemma {:induction false} KeptLength(js: seq<JoinClause>)
    ensures |Kept(js)| <= |js|
    decreases |js|
  {
    if js != [] {
      KeptLength(js[1..]);
      KeptLength(AfterFirstOn(js[1..]));
    }
  }

  lemma {:induction false} AfterFirstOnShorter(js: seq<JoinClause>)
    requires HasOn(js)
    ensures |AfterFirstOn(js)| < |js|
  {
    if !js[0].on.Some? {
      assert js == [js[0]] + js[1..];
      AfterFirstOnShorter(js[1..]);
    }
  }

  /** The extraction sees every joined table exactly when no join without ON stands before one with ON. */
  lemma {:induction false} KeptAll(js: seq<JoinClause>)
    ensures Kept(js) == Tables(js) <==> OnFirst(js)
    ensures |Kept(js)| == |js| <==> OnFirst(js)
    decreases |js|
  {
    if js != [] {
      var rest := js[1..];
      assert js == [js[0]] + rest;
      KeptAll(rest);
      if js[0].on.Some? || !HasOn(rest) {
        assert OnFirst(js) <==> OnFirst(rest) by {
          if OnFirst(rest) {
            forall i, k | 0 <= i < k < |js| && js[i].on.None? ensures js[k].on.None? {
              assert js[k] == rest[k - 1] && js[k] in rest;
              if i > 0 {
                assert js[i] == rest[i - 1];
              }
            }
          }
          if OnFirst(js) {
            forall i, k | 0 <= i < k < |rest| && rest[i].on.None? ensures rest[k].on.None? {
              assert rest[i] == js[i + 1] && rest[k] == js[k + 1];
            }
          }
        }
        assert Kept(js)[1..] == Kept(rest) && Tables(js)[1..] == Tables(rest);
      } else {
        AfterFirstOnShorter(rest);
        KeptLength(AfterFirstOn(rest));
        var j :| j in rest && j.on.Some?;
        var k :| 0 <= k < |rest| && rest[k] == j;
        assert js[k + 1].on.Some?;
        assert |Kept(js)| < |Tables(js)|;
      }
    }
  }

  // ----- Round trip -----

  /** A printed reference is read back as itself. */
  lemma ParseRefText(t: TableRef, form: RefForm)
    requires GoodRef(t, form)
    ensures ParseTableRef(RefText(t, form)) == t
    ensures Trimmed(RefText(t, form))
  {
    hide ParseTableRef, Trimmed, CleanOf;
    if !form.Verbatim? {
      ParseWritten(t, form);
    }
  }

  /** So is a reference written as a table, with or without alias and AS. */
  lemma ParseWritten(t: TableRef, form: RefForm)
    requires GoodRef(t, form) && !form.Verbatim?
    ensures ParseTableRef(RefText(t, form)) == t
    ensures Trimmed(RefText(t, form))
  {
    hide *;
    RefTextEnds(t, form);
    RefTextFields(t, form);
    NoTrimming(RefText(t, form));
    ParseWords(RefText(t, form));
    AsFolds();
  }

  lemma NoTrimming(s: string)
    requires s != "" && !IsSpace(s[0]) && !IsSpace(s[|s| - 1]) && s[|s| - 1] != ','
    ensures Trimmed(s) && TrimSuffix(Trim(s), ",") == s
  {
    hide Trim;
    TrimOfTrimmed(s);
  }

  /** What the parser makes of the words of a text that needs no trimming. */
  lemma ParseWords(s: string)
    requires TrimSuffix(Trim(s), ",") == s
    ensures var ws := Fields(s);
            ParseTableRef(s) ==
            if |ws| == 0 then TableRef("", "")
            else if |ws| == 1 then TableRef(ws[0], "")
            else if EqualFold(ws[1], "AS") && |ws| >= 3 then TableRef(ws[0], ws[2])
            else TableRef(ws[0], ws[1])
  {
    hide Fields, Trim, EqualFold;
  }

  lemma AsFolds()
    ensures EqualFold("AS", "AS")
  {
  }

  lemma RefTextEnds(t: TableRef, form: RefForm)
    requires GoodRef(t, form) && !form.Verbatim?
    ensures var s := RefText(t, form); s != "" && !IsSpace(s[0]) && !IsSpace(s[|s| - 1]) && s[|s| - 1] != ','
  {
    var s := RefText(t, form);
    assert s[|s| - 1] == if t.alias == "" then t.name[|t.name| - 1] else t.alias[|t.alias| - 1];
  }

  lemma RefTextFields(t: TableRef, form: RefForm)
    requires GoodRef(t, form) && !form.Verbatim?
    ensures Fields(RefText(t, form)) ==
            if t.alias == "" then [t.name] else if form.WithAs? then [t.name, "AS", t.alias] else [t.name, t.alias]
  {
    hide Fields;
    AsWord();
    if t.alias == "" {
      FieldsOne(t.name);
    } else {
      FieldsOne(t.alias);
      FieldsSpaced("AS", t.alias);
      if form.WithAs? {
        FieldsSpaced(t.name, "AS" + " " + t.alias);
        assert t.name + " " + ("AS" + " " + t.alias) == t.name + (" " + ("AS" + " " + t.alias));
      } else {
        FieldsSpaced(t.name, t.alias);
      }
    }
  }

  lemma AsWord()
    ensures IsWord("AS") && NoSpaces("AS")
  {
    assert "AS"[0] == 'A' && "AS"[1] == 'S';
  }

  lemma FieldsOne(w: string)
    requires w != "" && NoSpaces(w)
    ensures Fields(w) == [w]
  {
    FieldsWord(w, "");
    assert w + "" == w;
  }

  lemma FieldsSpaced(w: string, rest: string)
    requires w != "" && NoSpaces(w)
    ensures Fields(w + " " + rest) == [w] + Fields(rest)
  {
    FieldsWord(w, " " + rest);
    assert w + " " + rest == w + (" " + rest);
    assert (" " + rest)[1..] == rest;
  }

  lemma JoinWordsAreWords()
    ensures IsWord("LEFT") && IsWord("RIGHT") && IsWord("FULL") && IsWord("INNER")
    ensures IsWord("CROSS") && IsWord("NATURAL") && IsWord("JOIN") && IsWord("ON")
  {
  }

  lemma ClauseWordsAreWords()
    ensures IsWord("FROM") && IsWord("WHERE") && IsWord("ORDER") && IsWord("GROUP") && IsWord("LIMIT")
    ensures IsWord("HAVING") && IsWord("UNION")
  {
  }

  lemma ReservedAreWords()
    ensures forall w :: w in Reserved() ==> IsWord(w) && w != "AS" && w != "OUTER"
  {
    hide IsWord;
    JoinWordsAreWords();
    ClauseWordsAreWords();
  }

  lemma OpeningWordsReserved()
    ensures forall w :: w in JoinOpeningWords() || w in EndOpeningWords() ==> w in Reserved()
    ensures "ON" in Reserved() && "WHERE" in Reserved() && "FROM" in Reserved()
  {
    hide IsWord;
  }

  lemma ReservedWords()
    ensures forall w :: w in Reserved() ==> IsWord(w) && w != "AS" && w != "OUTER"
    ensures forall w :: w in JoinOpeningWords() || w in EndOpeningWords() ==> w in Reserved()
    ensures "ON" in Reserved() && "WHERE" in Reserved() && "FROM" in Reserved()
  {
    hide *;
    ReservedAreWords();
    OpeningWordsReserved();
  }

  lemma JoinOpener(k: JoinKind)
    ensures Opens(JoinKeywords()[k], JoinOpeningWords()[k])
  {
    hide Opens;
    var w := JoinOpeningWords()[k];
    assert w in JoinOpeningWords();
    ReservedWords();
    hide JoinKeywords, JoinOpeningWords, Reserved, IsWord;
    if k < 3 {
      SpelledOuter(k);
      OpensWith(w, " OUTER JOIN ");
    } else if k < 8 {
      SpelledPlain(k);
      OpensWith(w, " JOIN ");
    } else {
      SpelledBare();
      OpensWith(w, " ");
    }
  }

  lemma SpelledBare()
    ensures JoinKeywords()[8] == " " + JoinOpeningWords()[8] + " "
  {
  }

  lemma JoinOpeners()
    ensures OpensAll(JoinKeywords(), JoinOpeningWords())
  {
    assert |JoinKeywords()| == |JoinOpeningWords()| == 9;
    hide Opens, JoinKeywords, JoinOpeningWords;
    forall k | 0 <= k < |JoinKeywords()| ensures Opens(JoinKeywords()[k], JoinOpeningWords()[k]) {
      JoinOpener(k);
    }
  }

  function EndRest(k: nat): string
    requires k < 5
  {
    if k < 2 then " BY " else " "
  }

  lemma EndSpelled(k: nat)
    requires k < 5
    ensures EndMarkers()[k] == " " + EndOpeningWords()[k] + EndRest(k)
  {
  }

  lemma EndOpener(k: nat)
    requires k < 5
    ensures Opens(EndMarkers()[k], EndOpeningWords()[k])
  {
    hide Opens;
    assert EndOpeningWords()[k] in EndOpeningWords() && EndRest(k)[0] == ' ';
    ReservedWords();
    EndSpelled(k);
    hide EndMarkers, EndOpeningWords, Reserved, IsWord, EndRest;
    OpensWith(EndOpeningWords()[k], EndRest(k));
  }

  lemma EndOpeners()
    ensures OpensAll(EndMarkers(), EndOpeningWords())
  {
    hide Opens;
    assert |EndMarkers()| == |EndOpeningWords()| == 5;
    forall k | 0 <= k < 5 ensures Opens(EndMarkers()[k], EndOpeningWords()[k]) {
      EndOpener(k);
    }
  }

  lemma NotPrefix(a: string, b: string, m: nat)
    requires m < |a| && (m >= |b| || a[m] != b[m])
    ensures !(a <= b)
  {
  }

  lemma JoinKeywordsPrefixFree()
    ensures PrefixFree(JoinKeywords())
  {
    forall k, l | 0 <= k < |JoinKeywords()| && 0 <= l < |JoinKeywords()| && k != l
      ensures !(JoinKeywords()[k] <= JoinKeywords()[l])
    {
      var m := if JoinKeywords()[k][1] != JoinKeywords()[l][1] then 1 else if k == 0 || l == 0 then 6 else 7;
      NotPrefix(JoinKeywords()[k], JoinKeywords()[l], m);
    }
  }

  /** The words of a JOIN keyword. */
  function JoinWords(kind: JoinKind): seq<string>
  {
    if kind < 3 then [JoinOpeningWords()[kind], "OUTER", "JOIN"]
    else if kind < 8 then [JoinOpeningWords()[kind], "JOIN"]
    else ["JOIN"]
  }

  lemma SpacedShort(w: string)
    ensures Spaced(["JOIN"]) == " JOIN "
    ensures Spaced([w, "JOIN"]) == " " + w + " JOIN "
    ensures Spaced([w, "OUTER", "JOIN"]) == " " + w + " OUTER JOIN "
  {
    assert ["JOIN"][1..] == [];
    assert [w, "JOIN"][1..] == ["JOIN"];
    assert [w, "OUTER", "JOIN"][1..] == ["OUTER", "JOIN"] && ["OUTER", "JOIN"][1..] == ["JOIN"];
  }

  lemma JoinWordsSpell(kind: JoinKind)
    ensures JoinKeywords()[kind] == Spaced(JoinWords(kind))
  {
    hide Spaced;
    var w := JoinOpeningWords()[kind];
    SpacedShort(w);
    if kind < 3 {
      SpelledOuter(kind);
    } else if kind < 8 {
      SpelledPlain(kind);
    }
  }

  lemma SpelledOuter(kind: JoinKind)
    requires kind < 3
    ensures JoinKeywords()[kind] == " " + JoinOpeningWords()[kind] + " OUTER JOIN "
  {
  }

  lemma SpelledPlain(kind: JoinKind)
    requires 3 <= kind < 8
    ensures JoinKeywords()[kind] == " " + JoinOpeningWords()[kind] + " JOIN "
  {
  }

  /** A word that is no JOIN word stays absent when a JOIN keyword is put between two parts. */
  lemma CleanAroundJoin(a: string, kind: JoinKind, b: string, w: string)
    requires Clean(a, w) && Clean(b, w) && w in Reserved() && w !in JoinOpeningWords()
    ensures Clean(a + JoinKeywords()[kind] + b, w)
  {
    hide Clean, Opens;
    JoinWordsSpell(kind);
    JoinWordsApart(kind, w);
    hide JoinKeywords, JoinWords, JoinOpeningWords, Reserved, Spaced;
    CleanSpaced(a, JoinWords(kind), b, w);
  }

  lemma JoinWordsApart(kind: JoinKind, w: string)
    requires w in Reserved() && w !in JoinOpeningWords()
    ensures IsWord(w) && forall v :: v in JoinWords(kind) ==> IsWord(v) && v != w
  {
    ReservedWords();
    JoinWordsAre(kind);
    assert IsWord("OUTER");
    hide JoinOpeningWords, Reserved, IsWord, JoinWords;
  }

  lemma JoinWordsAre(kind: JoinKind)
    ensures forall v :: v in JoinWords(kind) ==> v in JoinOpeningWords() || v == "OUTER"
  {
    var ws := JoinOpeningWords();
    assert ws[kind] in ws && ws[8] in ws && ws[8] == "JOIN";
  }

  // ----- Which words the printed parts contain -----

  lemma RefTextClean(t: TableRef, form: RefForm, w: string)
    requires GoodRef(t, form) && w in Reserved()
    ensures Clean(RefText(t, form), w)
  {
    hide Clean;
    ReservedWords();
    assert NoSpaces(w);
    if !form.Verbatim? {
      CleanWord(t.name, w);
      if t.alias != "" {
        CleanWord(t.alias, w);
        if form.WithAs? {
          assert IsWord("AS");
          CleanOfWord("AS", w);
          CleanSpace("AS", t.alias, w);
          CleanSpace(t.name, "AS" + " " + t.alias, w);
        } else {
          CleanSpace(t.name, t.alias, w);
        }
      }
    }
  }

  lemma OnTextClean(c: string, w: string)
    requires IsWord(w) && w != "ON" && Clean(c, w)
    ensures Clean(OnText(Some(c)), w)
  {
    CleanEmpty(w);
    OnWordClean("", c, w);
    assert "" + OnText(Some(c)) == OnText(Some(c));
  }

  /** A text extended by joins contains a word only if the text, the conditions or the JOIN keywords do. */
  lemma {:induction false} JoinsTextClean(a: string, js: seq<JoinClause>, w: string)
    requires Clean(a, w) && w in Reserved() && w !in JoinOpeningWords()
    requires forall j :: j in js ==> GoodJoin(j)
    requires w == "ON" ==> !HasOn(js)
    ensures Clean(a + JoinsText(js), w)
    decreases |js|
  {
    hide *;
    if js == [] {
      JoinsTextStarts(js);
      assert a + "" == a;
    } else {
      var j, rest := js[0], JoinsText(js[1..]);
      var ref, on := RefText(j.table, j.form), OnText(j.on);
      GoodJoins(js);
      JoinsTextCons(js);
      ReservedWords();
      RefTextClean(j.table, j.form, w);
      CleanAroundJoin(a, j.kind, ref, w);
      var b := a + JoinKeywords()[j.kind] + ref;
      HasOnTail(js);
      if j.on.Some? {
        CleanOfAt(j.on.value, Reserved(), w);
        OnWordClean(b, j.on.value, w);
      } else {
        NoOnText(j.on, "");
        assert b + on == b;
      }
      JoinsTextClean(b + on, js[1..], w);
      RegroupBare(a, JoinKeywords()[j.kind], ref, on, rest);
    }
  }

  lemma CleanOfAt(a: string, ws: seq<string>, w: string)
    requires CleanOf(a, ws) && w in ws
    ensures Clean(a, w)
  {
  }

  lemma HasOnTail(js: seq<JoinClause>)
    requires js != []
    ensures HasOn(js[1..]) ==> HasOn(js)
    ensures js[0].on.Some? ==> HasOn(js)
  {
    assert js[0] in js;
  }

  lemma OnWordClean(b: string, c: string, w: string)
    requires IsWord(w) && w != "ON" && Clean(b, w) && Clean(c, w)
    ensures Clean(b + OnText(Some(c)), w)
  {
    assert IsWord("ON");
    CleanAfterWord(b, "ON", c, w);
    assert " " + "ON" + " " + c == " ON " + c;
  }

  lemma JoinsTextStarts(js: seq<JoinClause>)
    requires forall j :: j in js ==> GoodJoin(j)
    ensures js == [] ==> JoinsText(js) == ""
    ensures js != [] ==>
              && JoinsText(js) != "" && JoinsText(js)[0] == ' '
              && MatchAt(Upper(JoinsText(js)), 0, JoinKeywords()[js[0].kind])
              && StartsWithOneOf(JoinsText(js), JoinKeywords())
  {
    if js != [] {
      var kw := JoinKeywords()[js[0].kind];
      var rest := JoinsText(js)[|kw|..];
      assert JoinsText(js) == kw + rest;
      UpperConcat(kw, rest);
      JoinKeywordUpper(js[0].kind);
      assert Upper(JoinsText(js))[0..|kw|] == kw;
    }
  }

  lemma JoinKeywordUpper(kind: JoinKind)
    ensures Upper(JoinKeywords()[kind]) == JoinKeywords()[kind] && JoinKeywords()[kind] != ""
            && JoinKeywords()[kind][0] == ' '
  {
  }

  lemma CleanOpeners(a: string)
    requires CleanOf(a, Reserved())
    ensures CleanOf(a, JoinOpeningWords()) && CleanOf(a, EndOpeningWords())
  {
    ReservedWords();
  }

  lemma RefTextCleanAll(t: TableRef, form: RefForm)
    requires GoodRef(t, form)
    ensures CleanOf(RefText(t, form), Reserved()) && CleanOf(RefText(t, form), JoinOpeningWords())
  {
    forall w | w in Reserved() ensures Clean(RefText(t, form), w) {
      RefTextClean(t, form, w);
    }
    CleanOpeners(RefText(t, form));
  }

  lemma OnTextCleanAll(c: string)
    requires CleanOf(c, Reserved())
    ensures CleanOf(OnText(Some(c)), JoinOpeningWords())
  {
    ReservedWords();
    forall w | w in JoinOpeningWords() ensures Clean(OnText(Some(c)), w) {
      assert w != "ON";
      OnTextClean(c, w);
    }
  }

  // ----- One round of the loop on printed joins -----

  /** The head of the loop: the keyword and the text after it. */
  lemma NextJoinAfter(a: string, js: seq<JoinClause>, after: string)
    requires CleanOf(a, JoinOpeningWords()) && js != []
    requires forall j :: j in js ==> GoodJoin(j)
    requires JoinsText(js) == JoinKeywords()[js[0].kind] + after
    requires "" !in JoinKeywords()
    ensures FirstOf(Upper(a + JoinsText(js)), JoinKeywords()) == (|a|, JoinKeywords()[js[0].kind])
    ensures var kw := JoinKeywords()[js[0].kind];
            (a + JoinsText(js))[|a| + |kw|..] == after && kw != ""
  {
    hide JoinKeywords, JoinOpeningWords, PrefixFree, OpensAll, CleanOf, FirstOf, Upper, GoodJoin;
    JoinOpeners();
    JoinKeywordsPrefixFree();
    JoinsTextStarts(js);
    FirstKeywordAt(a, JoinsText(js), JoinKeywords(), JoinOpeningWords(), js[0].kind);
  }

  /** Where the table reference at the front of `after` ends: at the first ON or JOIN, whichever follows it. */
  lemma FirstJoinAfterRef(ref: string, rest: string)
    requires CleanOf(ref, JoinOpeningWords()) && "" !in JoinKeywords()
    requires rest == "" || rest[0] == ' '
    ensures FirstOf(Upper(ref + rest), JoinKeywords()).0 >= |ref|
    ensures rest == "" || StartsWithOneOf(rest, JoinKeywords()) ==>
            FirstOf(Upper(ref + rest), JoinKeywords()).0 == |ref|
  {
    JoinOpeners();
    FirstNotBefore(ref, rest, JoinKeywords(), JoinOpeningWords());
    if rest == "" || StartsWithOneOf(rest, JoinKeywords()) {
      FirstOfAt(ref, rest, JoinKeywords(), JoinOpeningWords());
    }
  }

  lemma OnStarts(c: string, rest: string)
    ensures var t := OnText(Some(c)) + rest; t != "" && t[0] == ' ' && MatchAt(Upper(t), 0, " ON ")
    ensures OnText(Some(c)) != "" && OnText(Some(c))[0] == ' '
  {
    var t := OnText(Some(c)) + rest;
    assert t == " ON " + (c + rest);
    StartsLiteral(" ON ", c + rest);
  }

  lemma OpensOn()
    ensures Opens(" ON ", "ON") && Opens(" WHERE ", "WHERE") && Opens(" FROM ", "FROM")
  {
    assert " ON " == " " + "ON" + " " && " WHERE " == " " + "WHERE" + " " && " FROM " == " " + "FROM" + " ";
    ReservedWords();
    hide Opens, IsWord, Reserved;
    OpensWith("ON", " ");
    OpensWith("WHERE", " ");
    OpensWith("FROM", " ");
  }

  /** A join with ON: the round takes its table and goes on after its condition. */
  lemma TakeTableOn(ref: string, on: string, tail: string)
    requires CleanOf(ref, Reserved()) && CleanOf(ref, JoinOpeningWords()) && CleanOf(on, JoinOpeningWords())
    requires on != "" && on[0] == ' ' && MatchAt(Upper(on + tail), 0, " ON ")
    requires tail == "" || (tail[0] == ' ' && StartsWithOneOf(tail, JoinKeywords()))
    requires "" !in JoinKeywords() && Trimmed(ref)
    ensures TakeTable(ref + (on + tail)) == (ParseTableRef(ref), tail)
  {
    hide *;
    var after := ref + (on + tail);
    FirstJoinAfterRef(ref, on + tail);
    OnAt(ref, on + tail);
    IndexLength(Upper(after), " ON ");
    SplitUpper(ref, on + tail);
    FirstJoinAfterRef(on, tail);
    SplitTwice(ref, on, tail);
    TrimOfTrimmed(ref);
    TakeTableAtOn(after, |ref|);
  }

  lemma TakeTableAtOn(after: string, on: nat)
    requires "" !in JoinKeywords() && on + 4 <= |after|
    requires Index(Upper(after), " ON ") == on <= FirstOf(Upper(after), JoinKeywords()).0
    ensures TakeTable(after) ==
            (ParseTableRef(Trim(after[..on])), after[on + FirstOf(Upper(after)[on..], JoinKeywords()).0..])
  {
    hide ParseTableRef, Trim, Index, FirstOf, Upper, JoinKeywords;
  }

  lemma NextJoinIs(rem: string, pos: nat, kw: string)
    requires "" !in JoinKeywords() && kw != "" && FirstOf(Upper(rem), JoinKeywords()) == (pos, kw)
    ensures NextJoin(rem) == Some(TakeTable(rem[pos + |kw|..]))
  {
    hide TakeTable, FirstOf, Upper, JoinKeywords;
  }

  lemma GoodJoins(js: seq<JoinClause>)
    requires js != [] && forall j :: j in js ==> GoodJoin(j)
    ensures GoodRef(js[0].table, js[0].form) && (js[0].on.Some? ==> CleanOf(js[0].on.value, Reserved()))
    ensures forall j :: j in js[1..] ==> GoodJoin(j)
  {
    assert js[0] in js;
  }

  lemma NextJoinOn(a: string, js: seq<JoinClause>)
    requires CleanOf(a, JoinOpeningWords()) && js != [] && js[0].on.Some?
    requires forall j :: j in js ==> GoodJoin(j)
    ensures NextJoin(a + JoinsText(js)) == Some((js[0].table, JoinsText(js[1..])))
  {
    hide *;
    JoinKeywordsNonEmpty();
    var j, tail := js[0], JoinsText(js[1..]);
    GoodJoins(js);
    var ref, on := RefText(j.table, j.form), OnText(j.on);
    RefTextCleanAll(j.table, j.form);
    OnTextCleanAll(j.on.value);
    JoinsTextStarts(js[1..]);
    ParseRefText(j.table, j.form);
    JoinsTextCons(js);
    OnStarts(j.on.value, tail);
    TakeTableOn(ref, on, tail);
    NextJoinAfter(a, js, ref + (on + tail));
    NextJoinIs(a + JoinsText(js), |a|, JoinKeywords()[j.kind]);
  }

  lemma JoinsTextCons(js: seq<JoinClause>)
    requires js != [] && forall j :: j in js ==> GoodJoin(j)
    ensures JoinsText(js) ==
            JoinKeywords()[js[0].kind] + (RefText(js[0].table, js[0].form) + (OnText(js[0].on) + JoinsText(js[1..])))
  {
  }

  lemma OnAt(ref: string, rest: string)
    requires CleanOf(ref, Reserved())
    requires rest != "" && rest[0] == ' ' && MatchAt(Upper(rest), 0, " ON ")
    ensures Index(Upper(ref + rest), " ON ") == |ref|
  {
    ReservedWords();
    OpensOn();
    IndexAt(ref, rest, " ON ", "ON");
  }

  lemma SplitUpper(a: string, b: string)
    ensures (a + b)[..|a|] == a && (a + b)[|a|..] == b && Upper(a + b)[|a|..] == Upper(b)
  {
  }

  lemma IndexLength(u: string, p: string)
    ensures Index(u, p) != -1 ==> Index(u, p) + |p| <= |u|
  {
  }

  lemma SplitTwice(a: string, b: string, c: string)
    ensures (a + (b + c))[|a| + |b|..] == c
  {
  }

  /** A join without ON, with no ON after it: the round takes its table and goes on at the next JOIN. */
  lemma NextJoinBare(a: string, js: seq<JoinClause>)
    requires CleanOf(a, JoinOpeningWords()) && js != [] && js[0].on.None? && !HasOn(js[1..])
    requires forall j :: j in js ==> GoodJoin(j)
    ensures NextJoin(a + JoinsText(js)) == Some((js[0].table, JoinsText(js[1..])))
  {
    hide *;
    JoinKeywordsNonEmpty();
    var j, tail := js[0], JoinsText(js[1..]);
    GoodJoins(js);
    var ref := RefText(j.table, j.form);
    RefTextCleanAll(j.table, j.form);
    JoinsTextStarts(js[1..]);
    ParseRefText(j.table, j.form);
    NoOnText(j.on, tail);
    JoinsTextCons(js);
    NoOnAfter(ref, js[1..]);
    TakeTableBare(ref, tail);
    NextJoinAfter(a, js, ref + tail);
    NextJoinIs(a + JoinsText(js), |a|, JoinKeywords()[j.kind]);
  }

  lemma TakeTableBare(ref: string, tail: string)
    requires CleanOf(ref, JoinOpeningWords()) && Index(Upper(ref + tail), " ON ") == -1
    requires tail == "" || (tail[0] == ' ' && StartsWithOneOf(tail, JoinKeywords()))
    requires "" !in JoinKeywords() && Trimmed(ref)
    ensures TakeTable(ref + tail) == (ParseTableRef(ref), tail)
  {
    hide ParseTableRef, FirstOf, Index, Upper, CleanOf, MatchAt, Trim, JoinKeywords, JoinOpeningWords, StartsWithOneOf;
    FirstJoinAfterRef(ref, tail);
    SplitUpper(ref, tail);
    TrimOfTrimmed(ref);
  }

  lemma NoOnAfter(ref: string, js: seq<JoinClause>)
    requires CleanOf(ref, Reserved()) && !HasOn(js)
    requires forall j :: j in js ==> GoodJoin(j)
    ensures Index(Upper(ref + JoinsText(js)), " ON ") == -1
  {
    ReservedWords();
    OpensOn();
    assert "ON" !in JoinOpeningWords();
    hide Clean, HasOn, JoinsText;
    JoinsTextClean(ref, js, "ON");
    IndexNone(ref + JoinsText(js), " ON ", "ON");
  }

  /** The joins before the first one with ON, and that join. */
  function FirstOn(js: seq<JoinClause>): (k: nat)
    requires HasOn(js)
    ensures k < |js| && js[k].on.Some? && !HasOn(js[..k]) && AfterFirstOn(js) == js[k + 1..]
  {
    if js[0].on.Some? then 0
    else
      assert js == [js[0]] + js[1..];
      var k := FirstOn(js[1..]);
      assert js[..k + 1] == [js[0]] + js[1..][..k];
      k + 1
  }

  lemma Regroup(x: string, y: string, z: string, a: string, b: string)
    ensures x + (y + (z + (a + b))) == x + (y + (z + a)) + b
  {
  }

  lemma {:induction false} JoinsTextConcat(a: seq<JoinClause>, b: seq<JoinClause>)
    requires forall j :: j in a || j in b ==> GoodJoin(j)
    ensures JoinsText(a + b) == JoinsText(a) + JoinsText(b)
  {
    if a == [] {
      assert a + b == b;
    } else {
      hide JoinKeywords, RefText, OnText, GoodJoin;
      assert (a + b)[1..] == a[1..] + b;
      JoinsTextConcat(a[1..], b);
      Regroup(JoinKeywords()[a[0].kind], RefText(a[0].table, a[0].form), OnText(a[0].on), JoinsText(a[1..]),
              JoinsText(b));
    }
  }

  /** A join without ON before a join with ON: the round takes its table and loses all joins up to that one. */
  lemma NextJoinHiding(a: string, js: seq<JoinClause>)
    requires CleanOf(a, JoinOpeningWords()) && js != [] && js[0].on.None? && HasOn(js[1..])
    requires forall j :: j in js ==> GoodJoin(j)
    ensures NextJoin(a + JoinsText(js)) == Some((js[0].table, JoinsText(AfterFirstOn(js[1..]))))
  {
    hide *;
    JoinKeywordsNonEmpty();
    var j, rest := js[0], js[1..];
    var k := FirstOn(rest);
    GoodJoins(js);
    GoodJoins(rest[k..]);
    assert rest[k..][0] == rest[k] && rest[k..][1..] == rest[k + 1..];
    var ref := RefText(j.table, j.form);
    var on := OnText(rest[k].on);
    var tail := JoinsText(rest[k + 1..]);
    var bare := BareText(ref, rest, k);
    RefTextCleanAll(j.table, j.form);
    BareTextIs(ref, rest, k);
    OnTextCleanAll(rest[k].on.value);
    JoinsTextStarts(rest);
    JoinsTextStarts(rest[k + 1..]);
    ParseRefText(j.table, j.form);
    NoOnText(j.on, JoinsText(rest));
    JoinsTextCons(js);
    OnStarts(rest[k].on.value, tail);
    TakeTableHiding(ref, JoinsText(rest), bare, on, tail);
    NextJoinAfter(a, js, ref + JoinsText(rest));
    NextJoinIs(a + JoinsText(js), |a|, JoinKeywords()[j.kind]);
  }

  lemma TakeTableHiding(ref: string, joins: string, bare: string, on: string, tail: string)
    requires CleanOf(ref, JoinOpeningWords()) && Clean(bare, "ON") && CleanOf(on, JoinOpeningWords())
    requires ref + joins == bare + (on + tail) && |ref| < |bare|
    requires joins != "" && joins[0] == ' ' && StartsWithOneOf(joins, JoinKeywords())
    requires on != "" && on[0] == ' ' && MatchAt(Upper(on + tail), 0, " ON ")
    requires tail == "" || (tail[0] == ' ' && StartsWithOneOf(tail, JoinKeywords()))
    requires "" !in JoinKeywords() && Trimmed(ref)
    ensures TakeTable(ref + joins) == (ParseTableRef(ref), tail)
  {
    hide ParseTableRef, FirstOf, Index, Upper, CleanOf, Clean, MatchAt, Trim, JoinKeywords, JoinOpeningWords,
         StartsWithOneOf;
    FirstJoinAfterRef(ref, joins);
    SplitUpper(ref, joins);
    TrimOfTrimmed(ref);
    OnAtClean(bare, on + tail);
    SplitUpper(bare, on + tail);
    FirstJoinAfterRef(on, tail);
    SplitTwice(bare, on, tail);
  }

  lemma NoOnText(on: Option<string>, t: string)
    requires on.None?
    ensures OnText(on) + t == t && OnText(on) == ""
  {
  }

  lemma OnAtClean(a: string, rest: string)
    requires Clean(a, "ON")
    requires rest != "" && rest[0] == ' ' && MatchAt(Upper(rest), 0, " ON ")
    ensures Index(Upper(a + rest), " ON ") == |a|
  {
    OpensOn();
    IndexAt(a, rest, " ON ", "ON");
  }

  /** The text from a reference up to the first ON among the joins after it. */
  function BareText(ref: string, rest: seq<JoinClause>, k: nat): string
    requires k < |rest|
  {
    ref + JoinsText(rest[..k]) + JoinKeywords()[rest[k].kind] + RefText(rest[k].table, rest[k].form)
  }

  lemma BareTextIs(ref: string, rest: seq<JoinClause>, k: nat)
    requires k < |rest| && !HasOn(rest[..k]) && rest[k].on.Some?
    requires forall j :: j in rest ==> GoodJoin(j)
    requires CleanOf(ref, Reserved())
    ensures ref + JoinsText(rest) == BareText(ref, rest, k) + (OnText(rest[k].on) + JoinsText(rest[k + 1..]))
    ensures |ref| < |BareText(ref, rest, k)|
    ensures Clean(BareText(ref, rest, k), "ON")
  {
    hide *;
    BareTextSplits(ref, rest, k);
    ReservedWords();
    OnReserved(ref, rest, k);
    BareTextClean(ref, rest, k);
  }

  lemma OnReserved(ref: string, rest: seq<JoinClause>, k: nat)
    requires k < |rest| && CleanOf(ref, Reserved())
    ensures "ON" in Reserved() && "ON" !in JoinOpeningWords() && Clean(ref, "ON")
  {
    hide Clean, IsWord;
  }

  lemma BareTextSplits(ref: string, rest: seq<JoinClause>, k: nat)
    requires k < |rest| && rest[k].on.Some? && forall j :: j in rest ==> GoodJoin(j)
    ensures ref + JoinsText(rest) == BareText(ref, rest, k) + (OnText(rest[k].on) + JoinsText(rest[k + 1..]))
    ensures |ref| < |BareText(ref, rest, k)|
  {
    hide *;
    assert rest == rest[..k] + rest[k..] && rest[k..][1..] == rest[k + 1..];
    JoinsTextConcat(rest[..k], rest[k..]);
    JoinsTextCons(rest[k..]);
    JoinKeywordUpper(rest[k].kind);
    BareUnfold(ref, rest, k);
    RegroupBare(ref, JoinsText(rest[..k]), JoinKeywords()[rest[k].kind], RefText(rest[k].table, rest[k].form),
                OnText(rest[k].on) + JoinsText(rest[k + 1..]));
  }

  lemma BareUnfold(ref: string, rest: seq<JoinClause>, k: nat)
    requires k < |rest|
    ensures BareText(ref, rest, k) ==
            ref + JoinsText(rest[..k]) + JoinKeywords()[rest[k].kind] + RefText(rest[k].table, rest[k].form)
  {
    hide JoinKeywords, RefText, JoinsText;
  }

  lemma RegroupBare(a: string, b: string, c: string, d: string, e: string)
    ensures a + (b + (c + (d + e))) == a + b + c + d + e
    ensures c != "" ==> |a| < |a + b + c + d|
  {
  }

  lemma BareTextClean(ref: string, rest: seq<JoinClause>, k: nat)
    requires k < |rest| && !HasOn(rest[..k]) && "ON" in Reserved() && "ON" !in JoinOpeningWords()
    requires forall j :: j in rest ==> GoodJoin(j)
    requires Clean(ref, "ON")
    ensures Clean(BareText(ref, rest, k), "ON")
  {
    hide Clean, HasOn;
    assert rest[k] in rest;
    JoinsTextClean(ref, rest[..k], "ON");
    RefTextClean(rest[k].table, rest[k].form, "ON");
    CleanAroundJoin(ref + JoinsText(rest[..k]), rest[k].kind, RefText(rest[k].table, rest[k].form), "ON");
  }

  /** The loop on printed joins yields the kept ones, in order. */
  lemma {:induction false} JoinedTablesOfText(a: string, js: seq<JoinClause>)
    requires CleanOf(a, JoinOpeningWords())
    requires forall j :: j in js ==> GoodJoin(j)
    ensures JoinedTables(a + JoinsText(js)) == Kept(js)
    decreases |js|
  {
    hide *;
    JoinKeywordsNonEmpty();
    CleanNothing();
    KeptUnfold(js);
    JoinsTextStarts(js);
    if js == [] {
      JoinOpeners();
      FirstOfAt(a, "", JoinKeywords(), JoinOpeningWords());
      assert a + "" == a;
      NoNextJoin(a);
    } else {
      GoodJoins(js);
      NamedJoin(js[0]);
      var rest := if js[0].on.Some? || !HasOn(js[1..]) then js[1..] else AfterFirstOn(js[1..]);
      if js[0].on.Some? {
        NextJoinOn(a, js);
      } else if !HasOn(js[1..]) {
        NextJoinBare(a, js);
      } else {
        NextJoinHiding(a, js);
        AfterFirstOnIn(js[1..]);
      }
      JoinedTablesOfText("", rest);
      assert "" + JoinsText(rest) == JoinsText(rest);
      JoinedTablesCons(a + JoinsText(js), js[0].table, JoinsText(rest));
    }
  }

  lemma KeptUnfold(js: seq<JoinClause>)
    ensures js == [] ==> Kept(js) == []
    ensures js != [] ==>
              Kept(js) == [js[0].table] +
                          Kept(if js[0].on.Some? || !HasOn(js[1..]) then js[1..] else AfterFirstOn(js[1..]))
  {
    hide HasOn;
  }

  lemma AfterFirstOnIn(js: seq<JoinClause>)
    ensures |AfterFirstOn(js)| <= |js| && forall j :: j in AfterFirstOn(js) ==> j in js
  {
  }

  lemma NamedJoin(j: JoinClause)
    requires GoodRef(j.table, j.form)
    ensures j.table.name != ""
  {
    hide CleanOf, ParseTableRef;
  }

  lemma NoNextJoin(rem: string)
    requires "" !in JoinKeywords() && FirstOf(Upper(rem), JoinKeywords()).0 == |rem|
    ensures JoinedTables(rem) == []
  {
    hide Upper, JoinKeywords, TakeTable;
    assert |Upper(rem)| == |rem| by { UpperLength(rem); }
  }

  lemma UpperLength(s: string)
    ensures |Upper(s)| == |s|
  {
  }

  lemma JoinedTablesCons(rem: string, t: TableRef, rest: string)
    requires NextJoin(rem) == Some((t, rest)) && t.name != ""
    ensures JoinedTables(rem) == [t] + JoinedTables(rest)
  {
    hide NextJoin;
  }

  lemma CleanNothing()
    ensures CleanOf("", JoinOpeningWords())
  {
    ReservedWords();
    forall w | w in JoinOpeningWords() ensures Clean("", w) {
      CleanEmpty(w);
    }
  }

  /** What may follow the FROM clause for the extraction to end there. */
  ghost predicate EndsTables(rest: string) {
    rest == "" || StartsWithOneOf(rest, [" WHERE "]) || StartsWithOneOf(rest, EndMarkers())
  }

  /** FROM-clause round trip: extraction from a printed query yields the main table and the kept joins, exactly. */
  lemma FromRoundTrip(head: string, c: Clause, rest: string)
    requires Clean(head, "FROM") && Clean(head, "WHERE") && GoodClause(c) && EndsTables(rest)
    ensures ExtractTables(head + " FROM " + ClauseText(c) + rest) == Ok([c.main] + Kept(c.joins))
  {
    hide *;
    JoinKeywordsNonEmpty();
    var q, text, main := head + " FROM " + ClauseText(c) + rest, ClauseText(c), RefText(c.main, c.form);
    SectionOf(head, c, rest);
    GoodMain(c);
    RefTextCleanAll(c.main, c.form);
    JoinsTextStarts(c.joins);
    JoinedTablesOfText(main, c.joins);
    ParseRefText(c.main, c.form);
    FirstJoinAfterRef(main, JoinsText(c.joins));
    assert q[|head| + 6..|head| + 6 + |text|] == text;
    ExtractIs(q, |head|, |head| + 6 + |text|);
    SplitUpper(main, JoinsText(c.joins));
    TrimOfTrimmed(main);
  }

  lemma GoodMain(c: Clause)
    requires GoodClause(c)
    ensures GoodRef(c.main, c.form) && c.main.name != "" && forall j :: j in c.joins ==> GoodJoin(j)
    ensures ClauseText(c) == RefText(c.main, c.form) + JoinsText(c.joins)
  {
    hide CleanOf, ParseTableRef, RefText, JoinsText, GoodJoin;
  }

  lemma ExtractIs(q: string, from: nat, end: nat)
    requires "" !in JoinKeywords() && from + 6 <= end <= |q| && from <= |Upper(q)|
    requires Index(Upper(q), " FROM ") == from && SectionEnd(Upper(q), from) == end
    ensures var section := q[from + 6..end];
            var main := ParseTableRef(Trim(section[..FirstOf(Upper(section), JoinKeywords()).0]));
            ExtractTables(q) == Ok((if main.name != "" then [main] else []) + JoinedTables(section))
  {
    hide Index, SectionEnd, ParseTableRef, Trim, FirstOf, JoinKeywords, JoinedTables, Upper;
  }

  lemma SectionOf(head: string, c: Clause, rest: string)
    requires Clean(head, "FROM") && Clean(head, "WHERE") && GoodClause(c) && EndsTables(rest)
    ensures var u := Upper(head + " FROM " + ClauseText(c) + rest);
            Index(u, " FROM ") == |head| && SectionEnd(u, |head|) == |head| + 6 + |ClauseText(c)|
  {
    hide JoinKeywords, RefText, OnText, Clean, GoodRef, JoinOpeningWords, Reserved, ClauseText, Upper, EndMarkers,
         EndOpeningWords, GoodClause, MatchAt, CleanOf, Opens;
    var text := ClauseText(c);
    var q := head + " FROM " + text + rest;
    var u := Upper(q);
    FromAt(head, text + rest);
    assert q == head + (" FROM " + (text + rest));
    JoinKeywordsNonEmpty();
    var section := " FROM " + text;
    assert u[|head|..] == Upper(section + rest);
    EndOpeners();
    SectionClean(c);
    FirstNotBefore(section, rest, EndMarkers(), EndOpeningWords());
    OpensOn();
    HeadClean(head, c);
    NoEarlyMatch(head + section, rest, " WHERE ", "WHERE");
    assert q == head + section + rest;
    hide Clean, CleanOf, ClauseText, Upper;
    if StartsWithOneOf(rest, EndMarkers()) || rest == "" {
      FirstOfAt(section, rest, EndMarkers(), EndOpeningWords());
    } else {
      assert MatchAt(Upper(rest), 0, [" WHERE "][0]);
      UpperConcat(head + section, rest);
      MatchConcat(Upper(head + section), Upper(rest), |head + section|, " WHERE ");
    }
  }

  lemma FromAt(head: string, text: string)
    requires Clean(head, "FROM")
    ensures Index(Upper(head + (" FROM " + text)), " FROM ") == |head|
  {
    OpensOn();
    StartsLiteral(" FROM ", text);
    IndexAt(head, " FROM " + text, " FROM ", "FROM");
  }

  lemma ClauseTextClean(c: Clause, w: string)
    requires GoodClause(c) && w in Reserved() && w !in JoinOpeningWords() && w != "ON"
    ensures Clean(ClauseText(c), w)
  {
    RefTextClean(c.main, c.form, w);
    JoinsTextClean(RefText(c.main, c.form), c.joins, w);
  }

  /** A word put in front of a text. */
  lemma CleanAfterWord(a: string, v: string, b: string, w: string)
    requires IsWord(v) && IsWord(w) && v != w && Clean(a, w) && Clean(b, w)
    ensures Clean(a + (" " + v + " " + b), w)
  {
    hide Clean;
    CleanOfWord(v, w);
    CleanSpace(a, v, w);
    CleanSpace(a + " " + v, b, w);
    assert a + " " + v + " " + b == a + (" " + v + " " + b);
  }

  lemma SectionClean(c: Clause)
    requires GoodClause(c)
    ensures CleanOf(" FROM " + ClauseText(c), EndOpeningWords())
  {
    hide Clean, ClauseText;
    forall w | w in EndOpeningWords() ensures Clean(" FROM " + ClauseText(c), w) {
      EndWordFacts(w);
      ClauseTextClean(c, w);
      CleanEmpty(w);
      CleanAfterWord("", "FROM", ClauseText(c), w);
      assert "" + (" " + "FROM" + " " + ClauseText(c)) == " FROM " + ClauseText(c);
    }
  }

  lemma EndWordFacts(w: string)
    requires w in EndOpeningWords()
    ensures IsWord("FROM") && IsWord(w) && w in Reserved() && w !in JoinOpeningWords() && w != "ON" && w != "FROM"
  {
    ReservedWords();
  }

  lemma HeadClean(head: string, c: Clause)
    requires Clean(head, "WHERE") && GoodClause(c)
    ensures Clean(head + (" FROM " + ClauseText(c)), "WHERE")
  {
    WhereWord();
    hide *;
    ClauseTextClean(c, "WHERE");
    CleanAfterWord(head, "FROM", ClauseText(c), "WHERE");
    assert " " + "FROM" + " " + ClauseText(c) == " FROM " + ClauseText(c);
  }

  lemma WhereWord()
    ensures "WHERE" in Reserved() && "WHERE" !in JoinOpeningWords() && "FROM" in Reserved()
    ensures IsWord("WHERE") && IsWord("FROM")
  {
    ReservedWords();
  }

  /** Every table of the clause is found exactly when no join without ON stands before a join with ON. */
  lemma AllTablesFound(head: string, c: Clause, rest: string)
    requires Clean(head, "FROM") && Clean(head, "WHERE") && GoodClause(c) && EndsTables(rest)
    ensures ExtractTables(head + " FROM " + ClauseText(c) + rest) == Ok([c.main] + Tables(c.joins)) <==>
            OnFirst(c.joins)
  {
    FromRoundTrip(head, c, rest);
    KeptAll(c.joins);
    assert ([c.main] + Kept(c.joins))[1..] == Kept(c.joins);
    assert ([c.main] + Tables(c.joins))[1..] == Tables(c.joins);
  }
}
