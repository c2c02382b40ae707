/** Injection of the tenant value into INSERT. */
module InsertRewriter {
  import opened Text
  import opened Decimal
  import opened Placeholders
  import opened Keywords
  import opened FromClause
  import opened Rewriter
  import opened Bindings

  // ----- The rewriting -----

  predicate IsParen(c: char) {
    c == '(' || c == ')'
  }

  /** `strings.Trim(s, "()")`. */
  function TrimParens(s: string): string
    decreases |s|
  {
    if s != "" && IsParen(s[0]) then TrimParens(s[1..])
    else if s != "" && IsParen(s[|s| - 1]) then TrimParens(s[..|s| - 1])
    else s
  }

  predicate ColumnExists(columnList: string, columnName: string) {
    exists i :: 0 <= i < |Split(TrimParens(columnList), ',')|
      && Trim(Split(TrimParens(columnList), ',')[i]) == columnName
  }

  method ColumnExistsInList(columnList: string, columnName: string) returns (found: bool)
    ensures found <==> ColumnExists(columnList, columnName)
  {
    var columns := Split(TrimParens(columnList), ',');
    for i := 0 to |columns|
      invariant forall k :: 0 <= k < i ==> Trim(columns[k]) != columnName
    {
      if Trim(columns[i]) == columnName {
        return true;
      }
    }
    return false;
  }

  /** Cuts `s` before the first occurrence of a keyword. */
  function CutAt(s: string, keyword: string): (string, string) {
    var i := Index(Upper(s), keyword);
    if i == -1 then (s, "") else (s[..i], s[i..])
  }

  /** The VALUES part with the tenant placeholder in it, or None when it has no parenthesis. */
  function NewValues(style: Style, valuesPart: string): Option<string> {
    var shifted := if style == Dollar then Shifted(valuesPart, 1) else valuesPart;
    if Index(shifted, "(") == -1 then None
    else Some(ReplaceFirst(shifted, "(", "(" + Placeholder(style, 1) + ", "))
  }

  function InjectInsert(config: Config, style: Style, query: string, tenant: Value,
                        args: seq<Value>): Outcome<Rewritten> {
    var u := Upper(query);
    var insertPos, valuesPos := Index(u, "INSERT INTO "), Index(u, " VALUES ");
    if insertPos == -1 then Err("invalid INSERT query")
    else if valuesPos == -1 then Err("explicit column list required")
    else if valuesPos < insertPos + 12 then Panic
    else
      var tablePart, valuesPart := query[insertPos + 12..valuesPos], query[valuesPos + 8..];
      var parenPos := Index(tablePart, "(");
      if parenPos == -1 then Err("explicit column list required")
      else
        var columnList := tablePart[parenPos..];
        if ColumnExists(Upper(columnList), Upper(config.tenantColumn)) then Ok((query, args))
        else
          match NewValues(style, valuesPart)
          case None => Err("invalid INSERT VALUES clause")
          case Some(values) =>
            var (rest, returning) := CutAt(values, " RETURNING ");
            var (plain, onConflict) := CutAt(rest, " ON CONFLICT ");
            Ok(("INSERT INTO " + Trim(tablePart[..parenPos]) + " " +
                ReplaceFirst(columnList, "(", "(" + config.tenantColumn + ", ") + " VALUES " + plain + onConflict +
                  returning,
                [tenant] + args))
  }

  method InjectInsertFilter(config: Config, style: Style, query: string, tenant: Value, args: seq<Value>)
    returns (r: Outcome<Rewritten>)
    ensures r == InjectInsert(config, style, query, tenant, args)
  {
    hide Index, Trim, Shifted, ColumnExists, Placeholder;
    var upper := Upper(query);
    var insertPos := Index(upper, "INSERT INTO ");
    if insertPos == -1 {
      return Err("invalid INSERT query");
    }
    var valuesPos := Index(upper, " VALUES ");
    if valuesPos == -1 {
      return Err("explicit column list required");
    }
    if valuesPos < insertPos + 12 {
      return Panic;
    }
    var tablePart := query[insertPos + 12..valuesPos];
    var valuesPart := query[valuesPos + 8..];
    var parenPos := Index(tablePart, "(");
    if parenPos == -1 {
      return Err("explicit column list required");
    }
    var tableName := Trim(tablePart[..parenPos]);
    var columnList := tablePart[parenPos..];
    var present := ColumnExistsInList(Upper(columnList), Upper(config.tenantColumn));
    if present {
      return Ok((query, args));
    }
    var newColumnList := ReplaceFirst(columnList, "(", "(" + config.tenantColumn + ", ");
    var newValuesPart := RenumberPlaceholders(style, valuesPart, 1);
    var valuesParenPos := Index(newValuesPart, "(");
    if valuesParenPos == -1 {
      return Err("invalid INSERT VALUES clause");
    }
    newValuesPart := ReplaceFirst(newValuesPart, "(", "(" + Placeholder(style, 1) + ", ");
    assert NewValues(style, valuesPart) == Some(newValuesPart);
    ghost var values := newValuesPart;
    hide NewValues, ReplaceFirst;
    var returningClause := "";
    var returningPos := Index(Upper(newValuesPart), " RETURNING ");
    if returningPos != -1 {
      returningClause := newValuesPart[returningPos..];
      newValuesPart := newValuesPart[..returningPos];
    }
    assert CutAt(values, " RETURNING ") == (newValuesPart, returningClause);
    ghost var rest := newValuesPart;
    var onConflictClause := "";
    var onConflictPos := Index(Upper(newValuesPart), " ON CONFLICT ");
    if onConflictPos != -1 {
      onConflictClause := newValuesPart[onConflictPos..];
      newValuesPart := newValuesPart[..onConflictPos];
    }
    assert CutAt(rest, " ON CONFLICT ") == (newValuesPart, onConflictClause);
    hide CutAt;
    r := Ok(("INSERT INTO " + tableName + " " + newColumnList + " VALUES " + newValuesPart + onConflictClause +
             returningClause,
             [tenant] + args));
  }

  // ----- INSERT statements as they are written -----

  /** An INSERT of one row or more. The columns are the texts between the commas; `tail` is what follows the rows: ON
      CONFLICT, RETURNING or nothing. */
  datatype InsertQuery = InsertQuery(table: string, columns: seq<string>, first: string, more: seq<string>,
                                     tail: string)

  function Joined(columns: seq<string>): string {
    if columns == [] then "" else if |columns| == 1 then columns[0] else columns[0] + "," + Joined(columns[1..])
  }

  function TablePart(q: InsertQuery): string {
    q.table + " (" + Joined(q.columns) + ")"
  }

  function RowsText(rows: seq<string>): string {
    if rows == [] then "" else ", (" + (rows[0] + (")" + RowsText(rows[1..])))
  }

  /** The text behind the first row. */
  function AfterFirst(q: InsertQuery): string {
    RowsText(q.more) + q.tail
  }

  function InsertText(q: InsertQuery): string {
    "INSERT INTO " + TablePart(q) + (" VALUES " + ("(" + q.first + ")" + AfterFirst(q)))
  }

  /** How many parentheses are open at the end of the text, or None when one is closed that is not open. */
  function OpenAfter(s: string): Option<nat> {
    if s == "" then Some(0)
    else
      match OpenAfter(s[..|s| - 1])
      case None => None
      case Some(d) =>
        var c := s[|s| - 1];
        if c == '(' then Some(d + 1) else if c != ')' then Some(d) else if d == 0 then None else Some(d - 1)
  }

  /** The values of one row: parentheses come in pairs. */
  predicate OneRow(s: string) {
    OpenAfter(s) == Some(0)
  }

  /** Neither commas nor parentheses inside a column; blanks around its name are allowed. */
  ghost predicate ColumnsApart(columns: seq<string>) {
    columns != [] && forall c :: c in columns ==> ',' !in c && '(' !in c && ')' !in c
  }

  /** Some column of the list is the given one in any letter case. */
  ghost predicate Listed(columns: seq<string>, column: string) {
    exists c :: c in columns && Upper(Trim(c)) == Upper(column)
  }

  ghost predicate GoodInsert(config: Config, q: InsertQuery) {
    && Trimmed(q.table) && '(' !in q.table && Clean(TablePart(q), "VALUES")
    && OneRow(q.first) && (forall r :: r in q.more ==> OneRow(r))
    && ColumnsApart(q.columns) && !Listed(q.columns, config.tenantColumn)
  }

  function ShiftedText(style: Style, s: string): string {
    if style == Dollar then Shifted(s, 1) else s
  }

  function ShiftedRows(style: Style, rows: seq<string>): (r: seq<string>)
    ensures |r| == |rows| && forall i :: 0 <= i < |rows| ==> r[i] == ShiftedText(style, rows[i])
  {
    seq(|rows|, i requires 0 <= i < |rows| => ShiftedText(style, rows[i]))
  }

  /** A blank in front of the first column. */
  function WithBlank(columns: seq<string>): seq<string> {
    if columns == [] then [" "] else [" " + columns[0]] + columns[1..]
  }

  function InsertRewrite(config: Config, style: Style, q: InsertQuery): InsertQuery {
    InsertQuery(q.table, [config.tenantColumn] + WithBlank(q.columns),
                Placeholder(style, 1) + ", " + ShiftedText(style, q.first), ShiftedRows(style, q.more),
                ShiftedText(style, q.tail))
  }

  /** The two cuts put back together give the uncut text. */
  lemma CutsRejoin(s: string)
    ensures var (rest, returning) := CutAt(s, " RETURNING ");
            var (plain, onConflict) := CutAt(rest, " ON CONFLICT ");
            plain + onConflict + returning == s
  {
    hide Index, Upper;
  }

  lemma {:induction false} ShiftConcat(a: seq<Token>, b: seq<Token>, offset: int)
    ensures Shift(a + b, offset) == Shift(a, offset) + Shift(b, offset)
  {
    if a == [] {
      assert a + b == b;
    } else {
      assert (a + b)[1..] == a[1..] + b;
      ShiftConcat(a[1..], b, offset);
    }
  }

  lemma {:induction false} RenderConcat(a: seq<Token>, b: seq<Token>)
    ensures Render(a + b) == Render(a) + Render(b)
  {
    if a == [] {
      assert a + b == b;
    } else {
      assert (a + b)[1..] == a[1..] + b;
      RenderConcat(a[1..], b);
    }
  }

  lemma ShiftedConcat(a: string, b: string, offset: int)
    requires SafeCut(a, b)
    ensures Shifted(a + b, offset) == Shifted(a, offset) + Shifted(b, offset)
  {
    TokenizeConcat(a, b);
    ShiftConcat(Tokenize(a), Tokenize(b), offset);
    RenderConcat(Shift(Tokenize(a), offset), Shift(Tokenize(b), offset));
  }

  lemma ShiftedParens(offset: int)
    ensures Shifted("(", offset) == "(" && Shifted(")", offset) == ")"
  {
    ShiftedPlain("(", offset);
    ShiftedPlain(")", offset);
  }

  lemma ShiftedPlain(s: string, offset: int)
    requires |s| == 1 && s[0] != '$'
    ensures Shifted(s, offset) == s
  {
    assert s[1..] == "";
    assert Tokenize(s) == [Char(s[0])];
    ShiftedCons(Char(s[0]), [], offset);
    ShiftedNone(offset);
    assert [Char(s[0])] + [] == [Char(s[0])];
  }

  lemma Parenthesised(values: string, tail: string)
    ensures "(" + values + ")" + tail == "(" + (values + (")" + tail))
  {
  }

  /** Renumbering works on the values and on the tail separately. */
  lemma ShiftedValues(style: Style, values: string, tail: string)
    ensures ShiftedText(style, "(" + values + ")" + tail) ==
            "(" + (ShiftedText(style, values) + ")" + ShiftedText(style, tail))
  {
    if style == Dollar {
      hide Shifted;
      Parenthesised(values, tail);
      ShiftedParens(1);
      ShiftedConcat("(", values + (")" + tail), 1);
      ShiftedConcat(values, ")" + tail, 1);
      ShiftedConcat(")", tail, 1);
    }
  }

  lemma NewValuesIs(style: Style, values: string, tail: string)
    ensures NewValues(style, "(" + values + ")" + tail) ==
            Some("(" + (Placeholder(style, 1) + ", " + ShiftedText(style, values)) + ")" + ShiftedText(style, tail))
  {
    hide Shifted, Placeholder, Index, ReplaceFirst, ShiftedText;
    ShiftedValues(style, values, tail);
    var new_, v, t := Placeholder(style, 1) + ", ", ShiftedText(style, values), ShiftedText(style, tail);
    ReplaceFirstParen(v + ")" + t, "(" + new_);
    assert "(" + (v + ")" + t) == "(" + (v + ")" + t);
    NewValuesUnfold(style, "(" + values + ")" + tail);
    assert "(" + new_ + (v + ")" + t) == "(" + (new_ + v) + ")" + t;
    assert "(" + Placeholder(style, 1) + ", " == "(" + new_;
  }

  lemma NewValuesUnfold(style: Style, valuesPart: string)
    ensures NewValues(style, valuesPart) ==
            if Index(ShiftedText(style, valuesPart), "(") == -1 then None
            else Some(ReplaceFirst(ShiftedText(style, valuesPart), "(", "(" + Placeholder(style, 1) + ", "))
  {
  }

  lemma ReplaceFirstParen(rest: string, new_: string)
    ensures Index("(" + rest, "(") == 0
    ensures ReplaceFirst("(" + rest, "(", new_) == new_ + rest
  {
    var s := "(" + rest;
    assert s[0..1] == "(" && MatchAt(s, 0, "(");
    assert s[..0] == "" && s[1..] == rest;
  }

  lemma FirstParen(table: string, rest: string)
    requires '(' !in table
    ensures Index(table + " (" + rest, "(") == |table| + 1
  {
    var s := table + " (" + rest;
    assert s[|table| + 1..|table| + 2] == "(";
    assert MatchAt(s, |table| + 1, "(");
    forall i | i < |table| + 1 ensures !MatchAt(s, i, "(") {
      if 0 <= i {
        assert s[i..i + 1][0] == s[i];
        assert s[i] != '(' by {
          if i < |table| {
            assert s[i] == table[i];
          }
        }
      }
    }
  }

  lemma TrimOneSpace(t: string)
    requires Trimmed(t)
    ensures Trim(t + " ") == t
  {
    if t == "" {
      assert " "[1..] == "" && TrimStart("") == "" && TrimStart(" ") == "";
    } else {
      TrimAround("", t, " ");
      assert "" + t + " " == t + " ";
    }
  }

  /** An INSERT up to VALUES, and the rest. */
  function InsertInto(part: string, rest: string): string {
    "INSERT INTO " + part + (" VALUES " + rest)
  }

  /** Where the searches of the rewriter land on a printed INSERT. */
  lemma InsertSearches(part: string, rest: string)
    requires Clean(part, "VALUES")
    ensures var t, u, n := InsertInto(part, rest), Upper(InsertInto(part, rest)), 12 + |part|;
            && Index(u, "INSERT INTO ") == 0 && Index(u, " VALUES ") == n
            && n + 8 <= |t| && t[12..n] == part && t[n + 8..] == rest
  {
    var t := InsertInto(part, rest);
    assert t == "INSERT INTO " + (part + (" VALUES " + rest));
    InsertUpper();
    StartsLiteral("INSERT INTO ", part + (" VALUES " + rest));
    StartsLiteral(" VALUES ", rest);
    InsertClean(part);
    IndexAt("INSERT INTO " + part, " VALUES " + rest, " VALUES ", "VALUES");
    CutInsert(part, rest);
  }

  lemma CutInsert(part: string, rest: string)
    ensures var t, n := InsertInto(part, rest), 12 + |part|;
            n + 8 <= |t| && t[12..n] == part && t[n + 8..] == rest
  {
  }

  lemma InsertUpper()
    ensures Upper("INSERT INTO ") == "INSERT INTO " && Upper(" VALUES ") == " VALUES "
    ensures Opens(" VALUES ", "VALUES")
  {
    assert " VALUES " == " " + "VALUES" + " ";
    OpensWith("VALUES", " ");
  }

  lemma InsertClean(part: string)
    requires Clean(part, "VALUES")
    ensures Clean("INSERT INTO " + part, "VALUES")
  {
    hide Clean;
    InsertWords();
    CleanOfWord("INSERT", "VALUES");
    CleanOfWord("INTO", "VALUES");
    CleanSpace("INSERT", "INTO", "VALUES");
    CleanSpace("INSERT" + " " + "INTO", part, "VALUES");
    assert "INSERT" + " " + "INTO" + " " == "INSERT INTO ";
    assert "INSERT" + " " + "INTO" + " " + part == "INSERT INTO " + part;
  }

  lemma InsertWords()
    ensures IsWord("INSERT") && IsWord("INTO") && IsWord("VALUES") && NoSpaces("VALUES")
  {
    assert IsWord("VALUES");
  }

  // ----- The column list -----

  lemma {:induction false} JoinedUpper(columns: seq<string>)
    ensures Upper(Joined(columns)) == Joined(Uppers(columns))
  {
    if |columns| > 1 {
      JoinedUpper(columns[1..]);
      assert Uppers(columns)[1..] == Uppers(columns[1..]);
      UpperConcat(columns[0] + ",", Joined(columns[1..]));
      UpperConcat(columns[0], ",");
      assert Upper(",") == ",";
    }
  }

  function Uppers(columns: seq<string>): (r: seq<string>)
    ensures |r| == |columns|
  {
    seq(|columns|, i requires 0 <= i < |columns| => Upper(columns[i]))
  }

  lemma SplitNone(s: string, c: char)
    requires c !in s
    ensures Split(s, c) == [s]
  {
    if s != "" {
      assert s[0] in s && s == [s[0]] + s[1..];
      SplitNone(s[1..], c);
    }
  }

  lemma {:induction false} SplitAt(a: string, c: char, b: string)
    requires c !in a
    ensures Split(a + [c] + b, c) == [a] + Split(b, c)
    decreases |a|
  {
    var s := a + [c] + b;
    if a == "" {
      assert s[1..] == b;
    } else {
      assert a[0] in a && a == [a[0]] + a[1..] && s[1..] == a[1..] + [c] + b;
      SplitAt(a[1..], c, b);
      assert ([a[1..]] + Split(b, c))[1..] == Split(b, c);
    }
  }

  /** Joining and splitting are inverse. */
  lemma {:induction false} SplitJoined(columns: seq<string>)
    requires columns != [] && forall c :: c in columns ==> ',' !in c
    ensures Split(Joined(columns), ',') == columns
  {
    if |columns| == 1 {
      SplitNone(columns[0], ',');
    } else {
      SplitJoined(columns[1..]);
      SplitAt(columns[0], ',', Joined(columns[1..]));
      assert "," == [','];
    }
  }

  predicate NoParens(s: string) {
    '(' !in s && ')' !in s
  }

  lemma TrimLeft(s: string)
    requires s != "" && IsParen(s[0])
    ensures TrimParens(s) == TrimParens(s[1..])
  {
  }

  lemma TrimRight(s: string)
    requires s != "" && !IsParen(s[0]) && IsParen(s[|s| - 1])
    ensures TrimParens(s) == TrimParens(s[..|s| - 1])
  {
  }

  lemma TrimNone(s: string)
    requires s == "" || (!IsParen(s[0]) && !IsParen(s[|s| - 1]))
    ensures TrimParens(s) == s
  {
  }

  lemma TrimBothParens(x: string)
    requires NoParens(x)
    ensures TrimParens("(" + x + ")") == x
  {
    var s, t := "(" + x + ")", x + ")";
    TrimLeft(s);
    assert s[1..] == t && t[..|x|] == x && t[|t| - 1] == ')';
    if x == "" {
      TrimLeft(t);
      assert t[1..] == x;
    } else {
      assert t[0] == x[0] && x[0] in x && x[|x| - 1] in x;
      TrimRight(t);
    }
    TrimNone(x);
  }

  /** White space behind the list keeps its closing parenthesis. */
  lemma TrimOneParen(x: string, gap: string)
    requires NoParens(x) && gap != "" && AllSpaces(gap)
    ensures TrimParens("(" + x + ")" + gap) == if x == "" then gap else x + ")" + gap
  {
    var s, t := "(" + x + ")" + gap, x + ")" + gap;
    TrimLeft(s);
    assert s[1..] == t && t[|t| - 1] == gap[|gap| - 1] && IsSpace(gap[|gap| - 1]) && IsSpace(gap[0]);
    if x == "" {
      TrimLeft(t);
      assert t[1..] == gap;
      TrimNone(gap);
    } else {
      assert t[0] == x[0] && x[0] in x;
      TrimNone(t);
    }
  }

  lemma {:induction false} JoinedNoParens(columns: seq<string>)
    requires forall c :: c in columns ==> NoParens(c)
    ensures NoParens(Joined(columns))
  {
    if |columns| > 1 {
      assert columns[0] in columns;
      JoinedNoParens(columns[1..]);
    } else if |columns| == 1 {
      assert columns[0] in columns;
    }
  }

  lemma UpperChars(s: string)
    ensures ',' in s <==> ',' in Upper(s)
    ensures NoParens(s) <==> NoParens(Upper(s))
  {
    forall i | 0 <= i < |s|
      ensures (s[i] == ',' <==> Upper(s)[i] == ',') && (s[i] == '(' <==> Upper(s)[i] == '(')
              && (s[i] == ')' <==> Upper(s)[i] == ')') {}
    forall c | c in Upper(s) ensures exists i :: 0 <= i < |s| && Upper(s)[i] == c {}
    forall c | c in s && (c == ',' || c == '(' || c == ')') ensures c in Upper(s) {
      var i :| 0 <= i < |s| && s[i] == c;
      assert Upper(s)[i] in Upper(s);
    }
    forall c | c in Upper(s) && (c == ',' || c == '(' || c == ')') ensures c in s {
      var i :| 0 <= i < |s| && Upper(s)[i] == c;
      assert s[i] in s;
    }
  }

  lemma UppersApart(columns: seq<string>)
    requires ColumnsApart(columns)
    ensures |Uppers(columns)| == |columns| != 0
    ensures forall c :: c in Uppers(columns) ==> ',' !in c && NoParens(c)
  {
    forall c | c in Uppers(columns) ensures ',' !in c && NoParens(c) {
      var i :| 0 <= i < |columns| && Uppers(columns)[i] == c;
      assert columns[i] in columns;
      UpperChars(columns[i]);
    }
  }

  lemma TrimmedUppers(columns: seq<string>, column: string)
    ensures (exists i :: 0 <= i < |columns| && Trim(Uppers(columns)[i]) == Upper(column)) <==> Listed(columns, column)
  {
    forall i | 0 <= i < |columns| ensures Trim(Uppers(columns)[i]) == Upper(Trim(columns[i])) {
      TrimUpper(columns[i]);
    }
    hide Trim, Upper;
    if Listed(columns, column) {
      var c :| c in columns && Upper(Trim(c)) == Upper(column);
      var i :| 0 <= i < |columns| && columns[i] == c;
      assert Trim(Uppers(columns)[i]) == Upper(column);
    }
  }

  lemma ListUpper(columns: seq<string>, gap: string)
    requires AllSpaces(gap)
    ensures Upper("(" + Joined(columns) + ")" + gap) == "(" + Joined(Uppers(columns)) + ")" + gap
  {
    JoinedUpper(columns);
    var x := Joined(columns);
    UpperConcat("(" + x + ")", gap);
    UpperConcat("(" + x, ")");
    UpperConcat("(", x);
    assert Upper("(") == "(" && Upper(")") == ")" && Upper(gap) == gap;
  }

  /** The search finds the column exactly when it is listed. */
  lemma ColumnFound(columns: seq<string>, column: string)
    requires ColumnsApart(columns)
    ensures ColumnExists(Upper("(" + Joined(columns) + ")"), Upper(column)) <==> Listed(columns, column)
  {
    var us, list := Uppers(columns), "(" + Joined(columns) + ")";
    UppersApart(columns);
    ListUpper(columns, "");
    assert list + "" == list && "(" + Joined(us) + ")" + "" == "(" + Joined(us) + ")";
    hide *;
    JoinedNoParens(us);
    TrimBothParens(Joined(us));
    SplitJoined(us);
    TrimmedUppers(columns, column);
    FoundIn(Upper(list), us, Upper(column));
  }

  lemma FoundIn(list: string, items: seq<string>, name: string)
    requires Split(TrimParens(list), ',') == items
    ensures ColumnExists(list, name) <==> exists i :: 0 <= i < |items| && Trim(items[i]) == name
  {
    hide Split, TrimParens, Trim;
  }

  lemma {:induction false} JoinedLast(columns: seq<string>, more: string)
    requires columns != []
    ensures Joined(columns) + more == Joined(columns[..|columns| - 1] + [columns[|columns| - 1] + more])
  {
    if |columns| > 1 {
      JoinedLast(columns[1..], more);
      var n := |columns| - 1;
      var to := columns[..n] + [columns[n] + more];
      assert to[1..] == columns[1..][..n - 1] + [columns[1..][n - 1] + more];
      assert Joined(columns) + more == columns[0] + "," + (Joined(columns[1..]) + more);
    }
  }

  lemma TrimKeepsParen(u: string, gap: string)
    requires ',' !in u && ',' !in gap
    ensures ')' in Trim(u + (")" + gap)) && ',' !in u + (")" + gap)
  {
    hide *;
    var s := u + (")" + gap);
    var l, r := TrimParts(s);
    InMiddle(s, l, Trim(s), r, |u|);
    ParenBehind(u, gap);
  }

  lemma InMiddle(s: string, l: string, t: string, r: string, i: nat)
    requires s == l + t + r && AllSpaces(l) && AllSpaces(r) && i < |s|
    ensures !IsSpace(s[i]) ==> s[i] in t
  {
    hide IsSpace;
    if |l| <= i < |l| + |t| {
      assert s[i] == t[i - |l|];
    } else if i < |l| {
      assert s[i] == l[i];
    } else {
      assert s[i] == r[i - |l| - |t|];
    }
  }

  lemma ParenBehind(u: string, gap: string)
    requires ',' !in u && ',' !in gap
    ensures var s := u + (")" + gap); |u| < |s| && s[|u|] == ')' && !IsSpace(s[|u|]) && ',' !in s
  {
  }

  lemma BlankHasNoComma(gap: string)
    requires AllSpaces(gap)
    ensures ',' !in gap && Trim(gap) == ""
  {
    forall c | c in gap ensures c != ',' {
      var i :| 0 <= i < |gap| && gap[i] == c;
      assert IsSpace(gap[i]);
    }
    TrimStartBlank(gap);
  }

  lemma {:induction false} TrimStartBlank(gap: string)
    requires AllSpaces(gap)
    ensures TrimStart(gap) == ""
  {
    if gap != "" {
      TrimStartBlank(gap[1..]);
    }
  }

  /** The items when white space stands behind the list: the last one keeps the parenthesis. */
  lemma ItemsBeforeGap(us: seq<string>, gap: string) returns (last: string)
    requires us != [] && AllSpaces(gap) && gap != "" && forall c :: c in us ==> ',' !in c && NoParens(c)
    ensures Split(TrimParens("(" + Joined(us) + ")" + gap), ',') == us[..|us| - 1] + [last]
    ensures Trim(last) == "" || ')' in Trim(last)
  {
    var n := |us| - 1;
    assert us[n] in us;
    JoinedNoParens(us);
    hide *;
    TrimOneParen(Joined(us), gap);
    BlankHasNoComma(gap);
    if Joined(us) == "" {
      OnlyColumn(us);
      SplitNone(gap, ',');
      last := gap;
      assert us[..n] == [];
    } else {
      last := us[n] + (")" + gap);
      TrimKeepsParen(us[n], gap);
      JoinedLast(us, ")" + gap);
      Regrouped(Joined(us), gap);
      NoCommas(us, last);
      SplitJoined(us[..n] + [last]);
    }
  }

  lemma Regrouped(a: string, gap: string)
    ensures a + (")" + gap) == a + ")" + gap
  {
  }

  lemma NoCommas(us: seq<string>, last: string)
    requires us != [] && (forall c :: c in us ==> ',' !in c) && ',' !in last
    ensures forall c :: c in us[..|us| - 1] + [last] ==> ',' !in c
  {
    forall c | c in us[..|us| - 1] + [last] ensures ',' !in c {
      assert c in us || c == last;
    }
  }

  lemma OnlyColumn(us: seq<string>)
    requires us != [] && Joined(us) == ""
    ensures us == [""]
  {
  }

  lemma UpperParen(s: string)
    requires ')' !in s
    ensures ')' !in Upper(s)
  {
    forall c | c in Upper(s) ensures c != ')' {
      var i :| 0 <= i < |s| && Upper(s)[i] == c;
      assert s[i] in s;
    }
  }

  lemma ExistsBeforeLast(items: seq<string>, last: string, name: string)
    requires Trim(last) != name
    ensures (exists i :: 0 <= i < |items| + 1 && Trim((items + [last])[i]) == name) <==>
            exists i :: 0 <= i < |items| && Trim(items[i]) == name
  {
    hide Trim;
    if i :| 0 <= i < |items| && Trim(items[i]) == name {
      assert (items + [last])[i] == items[i];
    }
    assert (items + [last])[|items|] == last;
  }

  /** With white space between the list and VALUES, the search does not find the column if it is the last. */
  lemma ColumnFoundBeforeLast(columns: seq<string>, gap: string, column: string)
    requires ColumnsApart(columns) && AllSpaces(gap) && gap != "" && column != "" && ')' !in column
    ensures ColumnExists(Upper("(" + Joined(columns) + ")" + gap), Upper(column)) <==>
            Listed(columns[..|columns| - 1], column)
  {
    var us, list, n := Uppers(columns), "(" + Joined(columns) + ")" + gap, |columns| - 1;
    UppersApart(columns);
    ListUpper(columns, gap);
    assert us[..n] == Uppers(columns[..n]);
    TrimmedUppers(columns[..n], column);
    assert Upper(column) != "" && ')' !in Upper(column) by { UpperParen(column); }
    hide *;
    var last := ItemsBeforeGap(us, gap);
    FoundIn(Upper(list), us[..n] + [last], Upper(column));
    ExistsBeforeLast(us[..n], last, Upper(column));
  }

  lemma InsertIsInto(q: InsertQuery)
    ensures InsertText(q) == InsertInto(TablePart(q), "(" + q.first + ")" + AfterFirst(q))
  {
  }

  // ----- What is not rewritten -----

  /** An INSERT without the words INSERT INTO or VALUES is refused, INSERT from a SELECT among them. */
  lemma InsertRefused(config: Config, style: Style, query: string, v: Value, args: seq<Value>)
    requires Absent("INSERT INTO ", Upper(query)) || Absent(" VALUES ", Upper(query))
    ensures InjectInsert(config, style, query, v, args).Err?
  {
  }

  /** VALUES in front of the end of INSERT INTO is a panic, and nothing else is. */
  lemma InsertPanicsIff(config: Config, style: Style, query: string, v: Value, args: seq<Value>)
    ensures var i, j := Index(Upper(query), "INSERT INTO "), Index(Upper(query), " VALUES ");
            InjectInsert(config, style, query, v, args) == Panic <==> i != -1 && j != -1 && j < i + |"INSERT INTO "|
  {
    hide Index, Upper, Trim, NewValues, CutAt, ReplaceFirst, ColumnExists;
  }

  /** So is one without a list of columns. */
  lemma InsertWithoutColumns(config: Config, style: Style, table: string, rest: string, v: Value, args: seq<Value>)
    requires '(' !in table && Clean(table, "VALUES")
    ensures InjectInsert(config, style, InsertInto(table, rest), v, args).Err?
  {
    InsertSearches(table, rest);
    hide Clean, Upper, NewValues, CutAt, ReplaceFirst, ColumnExists;
    NoParenFound(table);
  }

  lemma NoParenFound(s: string)
    requires '(' !in s
    ensures Index(s, "(") == -1
  {
    forall i | 0 <= i < |s| ensures !MatchAt(s, i, "(") {
      assert s[i..i + 1] == [s[i]] && s[i] in s;
    }
  }

  /** An INSERT comes back unchanged if and only if its list of columns names the tenant column; with white space
      between the list and VALUES, if and only if some column but the last does. Otherwise it is refused or gets the
      tenant. */
  lemma InsertUnchangedIff(config: Config, style: Style, table: string, columns: seq<string>, gap: string, rest: string,
                           v: Value, args: seq<Value>)
    requires '(' !in table && ColumnsApart(columns) && AllSpaces(gap)
    requires Clean(table + " (" + (Joined(columns) + ")" + gap), "VALUES")
    requires config.tenantColumn != "" && ')' !in config.tenantColumn
    ensures var query := InsertInto(table + " (" + (Joined(columns) + ")" + gap), rest);
            InjectInsert(config, style, query, v, args) == Ok((query, args)) <==>
            Listed(if gap == "" then columns else columns[..|columns| - 1], config.tenantColumn)
  {
    hide *;
    var list := "(" + Joined(columns) + ")" + gap;
    var part := table + " (" + (Joined(columns) + ")" + gap);
    if gap == "" {
      assert list == "(" + Joined(columns) + ")";
      ColumnFound(columns, config.tenantColumn);
    } else {
      ColumnFoundBeforeLast(columns, gap, config.tenantColumn);
    }
    InsertSearches(part, rest);
    FirstParen(table, Joined(columns) + ")" + gap);
    assert part[|table| + 1..] == list;
    PresentOrNot(config, style, part, |table| + 1, rest, v, args);
  }

  lemma PresentOrNot(config: Config, style: Style, part: string, open: nat, rest: string, v: Value, args: seq<Value>)
    requires var t, u, n := InsertInto(part, rest), Upper(InsertInto(part, rest)), 12 + |part|;
             && Index(u, "INSERT INTO ") == 0 && Index(u, " VALUES ") == n
             && n + 8 <= |t| && t[12..n] == part && t[n + 8..] == rest
    requires Index(part, "(") == open < |part|
    ensures InjectInsert(config, style, InsertInto(part, rest), v, args) == Ok((InsertInto(part, rest), args)) <==>
            ColumnExists(Upper(part[open..]), Upper(config.tenantColumn))
  {
    hide Index, Trim, NewValues, CutAt, ReplaceFirst, ColumnExists, Shifted, Placeholder, Upper, InsertInto;
    assert |[v] + args| == |args| + 1;
  }

  /** On a printed INSERT the rewriter adds the column, adds the placeholder and renumbers; the RETURNING and ON
      CONFLICT cuts change nothing. */
  lemma InsertTextIs(config: Config, style: Style, q: InsertQuery, v: Value, args: seq<Value>)
    requires GoodInsert(config, q)
    ensures InjectInsert(config, style, InsertText(q), v, args) ==
            Ok((InsertText(InsertRewrite(config, style, q)), [v] + args))
  {
    hide *;
    var part, list := TablePart(q), "(" + Joined(q.columns) + ")";
    var q' := InsertRewrite(config, style, q);
    GoodInsertParts(config, q);
    ColumnFound(q.columns, config.tenantColumn);
    RewriteParts(config, style, q);
    InsertSearches(part, "(" + q.first + ")" + AfterFirst(q));
    InsertIsInto(q);
    FirstParen(q.table, Joined(q.columns) + ")");
    assert part == q.table + " (" + (Joined(q.columns) + ")");
    assert part[..|q.table| + 1] == q.table + " " && part[|q.table| + 1..] == list;
    TrimOneSpace(q.table);
    ReplaceFirstParen(Joined(q.columns) + ")", "(" + config.tenantColumn + ", ");
    assert list == "(" + (Joined(q.columns) + ")");
    NewValuesIs(style, q.first, AfterFirst(q));
    ShiftedAfterFirst(config, style, q);
    var values := "(" + q'.first + ")" + AfterFirst(q');
    CutsRejoin(values);
    assert "(" + config.tenantColumn + ", " + (Joined(q.columns) + ")") == "(" + Joined(q'.columns) + ")";
    InsertShape(config, style, q, v, args, values);
  }

  lemma GoodInsertParts(config: Config, q: InsertQuery)
    requires GoodInsert(config, q)
    ensures Trimmed(q.table) && '(' !in q.table && Clean(TablePart(q), "VALUES")
    ensures ColumnsApart(q.columns) && !Listed(q.columns, config.tenantColumn)
    ensures TablePart(q) == q.table + " (" + Joined(q.columns) + ")"
  {
    hide Clean, OneRow, ColumnsApart, Listed;
  }

  lemma {:induction false} ShiftedRowsText(style: Style, rows: seq<string>, tail: string)
    ensures ShiftedText(style, RowsText(rows) + tail) ==
            RowsText(ShiftedRows(style, rows)) + ShiftedText(style, tail)
    decreases |rows|
  {
    if rows == [] {
      assert "" + tail == tail && "" + ShiftedText(style, tail) == ShiftedText(style, tail);
    } else {
      var rest, rest' := RowsText(rows[1..]) + tail, RowsText(ShiftedRows(style, rows[1..]));
      ShiftedRowsText(style, rows[1..], tail);
      ShiftedRow(style, rows[0], rest);
      assert ShiftedRows(style, rows)[1..] == ShiftedRows(style, rows[1..]);
      hide ShiftedText, ShiftedRows;
      RowsTextCons(rows, tail);
      RowsTextCons(ShiftedRows(style, rows), ShiftedText(style, tail));
    }
  }

  lemma RowsTextCons(rows: seq<string>, tail: string)
    requires rows != []
    ensures RowsText(rows) + tail == ", " + ("(" + rows[0] + ")" + (RowsText(rows[1..]) + tail))
  {
    assert ", (" == ", " + "(";
  }

  lemma ShiftedRow(style: Style, row: string, rest: string)
    ensures ShiftedText(style, ", " + ("(" + row + ")" + rest)) ==
            ", " + ("(" + ShiftedText(style, row) + ")" + ShiftedText(style, rest))
  {
    hide *;
    ShiftedValues(style, row, rest);
    ShiftedComma(style, "(" + row + ")" + rest);
    RowRegrouped(ShiftedText(style, row), ShiftedText(style, rest));
  }

  lemma RowRegrouped(row: string, rest: string)
    ensures "(" + (row + ")" + rest) == "(" + row + ")" + rest
  {
  }

  lemma ShiftedComma(style: Style, t: string)
    ensures ShiftedText(style, ", " + t) == ", " + ShiftedText(style, t)
  {
    if style == Dollar {
      CommaShifted();
      CutAfterSpace(", ", t);
      hide Shifted, SafeCut;
      ShiftedConcat(", ", t, 1);
    }
  }

  lemma CommaShifted()
    ensures Shifted(", ", 1) == ", "
  {
    hide Shifted;
    assert ", " == "," + " ";
    ShiftedPlain(",", 1);
    ShiftedPlain(" ", 1);
    ShiftedConcat(",", " ", 1);
  }

  lemma ShiftedAfterFirst(config: Config, style: Style, q: InsertQuery)
    ensures AfterFirst(InsertRewrite(config, style, q)) == ShiftedText(style, AfterFirst(q))
  {
    hide ShiftedText, Placeholder;
    ShiftedRowsText(style, q.more, q.tail);
  }

  lemma InsertShape(config: Config, style: Style, q: InsertQuery, v: Value, args: seq<Value>, values: string)
    requires var t := InsertText(q); var n := 12 + |TablePart(q)|;
             && Index(Upper(t), "INSERT INTO ") == 0 && Index(Upper(t), " VALUES ") == n
             && n + 8 <= |t| && t[12..n] == TablePart(q) && t[n + 8..] == "(" + q.first + ")" + AfterFirst(q)
    requires var part := TablePart(q);
             && Index(part, "(") == |q.table| + 1
             && part[..|q.table| + 1] == q.table + " " && part[|q.table| + 1..] == "(" + Joined(q.columns) + ")"
    requires Trim(q.table + " ") == q.table
    requires !ColumnExists(Upper("(" + Joined(q.columns) + ")"), Upper(config.tenantColumn))
    requires ReplaceFirst("(" + Joined(q.columns) + ")", "(", "(" + config.tenantColumn + ", ") ==
             "(" + Joined(InsertRewrite(config, style, q).columns) + ")"
    requires NewValues(style, "(" + q.first + ")" + AfterFirst(q)) == Some(values)
    requires var (rest, returning) := CutAt(values, " RETURNING ");
             var (plain, onConflict) := CutAt(rest, " ON CONFLICT ");
             plain + onConflict + returning == values
    requires values == "(" + InsertRewrite(config, style, q).first + ")" + AfterFirst(InsertRewrite(config, style, q))
    ensures InjectInsert(config, style, InsertText(q), v, args) ==
            Ok((InsertText(InsertRewrite(config, style, q)), [v] + args))
  {
    hide Index, Trim, NewValues, CutAt, ReplaceFirst, ColumnExists, Shifted, Placeholder, Upper, AfterFirst,
      ShiftedRows, Joined, Listed, ColumnsApart, WithBlank;
    var q' := InsertRewrite(config, style, q);
    var (rest, returning) := CutAt(values, " RETURNING ");
    var (plain, onConflict) := CutAt(rest, " ON CONFLICT ");
    var left := "INSERT INTO " + q.table + " " + ("(" + Joined(q'.columns) + ")") + " VALUES ";
    assert left + plain + onConflict + returning == left + (plain + onConflict + returning);
    assert left + values == InsertText(q');
  }

  // ----- Columns and values -----

  /** The parentheses open after a piece when `depth` were open before. */
  function Nested(p: Piece, depth: nat): nat {
    if p == Lit('(') then depth + 1 else if p == Lit(')') && depth > 0 then depth - 1 else depth
  }

  /** The text cut at the commas outside parentheses. */
  function SplitPieces(t: seq<Piece>, depth: nat): (r: seq<seq<Piece>>)
    ensures |r| >= 1
  {
    if t == [] then [[]]
    else
      var rest := SplitPieces(t[1..], Nested(t[0], depth));
      if t[0] == Lit(',') && depth == 0 then [[]] + rest else [[t[0]] + rest[0]] + rest[1..]
  }

  function StripBlanks(t: seq<Piece>): seq<Piece> {
    if t != [] && t[0] == Lit(' ') then StripBlanks(t[1..]) else t
  }

  function StripAll(items: seq<seq<Piece>>): (r: seq<seq<Piece>>)
    ensures |r| == |items|
  {
    seq(|items|, i requires 0 <= i < |items| => StripBlanks(items[i]))
  }

  /** The items of a comma-separated list, without the blanks in front of each. */
  function Items(t: seq<Piece>): seq<seq<Piece>> {
    StripAll(SplitPieces(t, 0))
  }

  /** No commas and no parentheses. */
  ghost predicate Simple(a: seq<Piece>) {
    Lit(',') !in a && Lit('(') !in a && Lit(')') !in a
  }

  lemma {:induction false} SplitFirst(a: seq<Piece>, t: seq<Piece>)
    requires Simple(a)
    ensures SplitPieces(a + ([Lit(',')] + t), 0) == [a] + SplitPieces(t, 0)
  {
    var all := a + ([Lit(',')] + t);
    if a == [] {
      assert all == [Lit(',')] + t && all[1..] == t;
    } else {
      assert all[1..] == a[1..] + ([Lit(',')] + t);
      SplitFirst(a[1..], t);
      assert all[0] == a[0] && a[0] in a && Nested(all[0], 0) == 0;
      var rest := SplitPieces(all[1..], 0);
      assert rest[0] == a[1..] && rest[1..] == SplitPieces(t, 0);
      assert a == [a[0]] + a[1..];
    }
  }

  /** An item put in front of a list. */
  lemma ItemsCons(a: seq<Piece>, t: seq<Piece>)
    requires Simple(a) && a != [] && a[0] != Lit(' ')
    ensures Items(a + (Lits(", ") + t)) == [a] + Items(t)
  {
    var spaced := [Lit(' ')] + t;
    assert Lits(", ") + t == [Lit(',')] + spaced;
    SplitFirst(a, spaced);
    assert spaced[1..] == t;
    var parts := SplitPieces(t, 0);
    assert SplitPieces(spaced, 0) == [[Lit(' ')] + parts[0]] + parts[1..];
    assert ([Lit(' ')] + parts[0])[1..] == parts[0];
    assert Items(a + (Lits(", ") + t)) == [a] + StripAll(SplitPieces(spaced, 0));
    assert StripAll(SplitPieces(spaced, 0)) == StripAll(parts);
  }

  function ColumnItems(style: Style, q: InsertQuery, args: seq<Value>): seq<seq<Piece>> {
    Items(Resolve(style, Joined(q.columns), args, Count(q.table, '?')))
  }

  /** The values of each row, in order; `k` marks stand before the first. */
  function RowItems(style: Style, rows: seq<string>, args: seq<Value>, k: nat): (r: seq<seq<seq<Piece>>>)
    ensures |r| == |rows|
  {
    if rows == [] then []
    else [Items(Resolve(style, rows[0], args, k))] + RowItems(style, rows[1..], args, k + Count(rows[0], '?'))
  }

  function RowMarks(rows: seq<string>): nat {
    if rows == [] then 0 else Count(rows[0], '?') + RowMarks(rows[1..])
  }

  function HeadMarks(q: InsertQuery): nat {
    Count(q.table, '?') + Count(Joined(q.columns), '?')
  }

  function FirstItems(style: Style, q: InsertQuery, args: seq<Value>): seq<seq<Piece>> {
    Items(Resolve(style, q.first, args, HeadMarks(q)))
  }

  function MoreItems(style: Style, q: InsertQuery, args: seq<Value>): (r: seq<seq<seq<Piece>>>)
    ensures |r| == |q.more|
  {
    RowItems(style, q.more, args, HeadMarks(q) + Count(q.first, '?'))
  }

  function TailPieces(style: Style, q: InsertQuery, args: seq<Value>): seq<Piece> {
    Resolve(style, q.tail, args, HeadMarks(q) + Count(q.first, '?') + RowMarks(q.more))
  }

  /** Every row has as many values as there are columns, as the database demands. */
  ghost predicate Fits(style: Style, q: InsertQuery, args: seq<Value>) {
    && |FirstItems(style, q, args)| == |ColumnItems(style, q, args)|
    && forall r :: r in MoreItems(style, q, args) ==> |r| == |ColumnItems(style, q, args)|
  }

  /** Every slot names one of the arguments; under `:N`, whose numbers stay, there is none. */
  ghost predicate SlotsNameArgs(style: Style, s: string, args: seq<Value>) {
    match style
    case Question => true
    case Dollar => |args| < MAX_INT && forall t :: t in Tokenize(s) && t.Slot? ==> 1 <= t.n <= |args|
    case Colon => MaxSlot(Scan(Colon, s)) == 0
  }

  lemma ResolveShifted(s: string, v: Value, args: seq<Value>, j: nat, k: nat)
    requires SlotsNameArgs(Dollar, s, args)
    ensures Resolve(Dollar, Shifted(s, 1), [v] + args, j) == Resolve(Dollar, s, args, k)
  {
    hide Shifted, Tokenize, MaxSlot;
    var ts := Tokenize(s);
    assert MaxSlot(ts) <= |args| by { SlotsBound(ts, args); }
    RenumberCommutesWithScan(s, 1);
    ResolveMovedTokens(ts, Tokenize(Shifted(s, 1)), v, args);
  }

  lemma SlotsBound(ts: seq<Token>, args: seq<Value>)
    requires forall t :: t in ts && t.Slot? ==> 1 <= t.n <= |args|
    ensures MaxSlot(ts) <= |args|
  {
  }

  lemma ResolveMovedTokens(ts: seq<Token>, ts': seq<Token>, v: Value, args: seq<Value>)
    requires |ts'| == |ts|
    requires forall i :: 0 <= i < |ts| ==> ts'[i] == match ts[i] case Char(c) => Char(c) case Slot(n) => Slot(n + 1)
    requires forall t :: t in ts && t.Slot? ==> 1 <= t.n <= |args|
    ensures ResolveTokens(ts', [v] + args) == ResolveTokens(ts, args)
  {
    forall i | 0 <= i < |ts| ensures ResolveToken(ts'[i], [v] + args) == ResolveToken(ts[i], args) {
      assert ts[i] in ts;
    }
  }

  /** The old values and the tail keep their bindings: slots have moved on by one, and so have the arguments. */
  lemma ResolveMoved(style: Style, s: string, v: Value, args: seq<Value>, k: nat)
    requires SlotsNameArgs(style, s, args)
    requires style == Question ==> k + Count(s, '?') <= |args|
    ensures Resolve(style, ShiftedText(style, s), [v] + args, k + MarkCount(style, 1)) == Resolve(style, s, args, k)
  {
    hide Tokenize, Shifted, ResolveMarks;
    match style {
      case Dollar => ResolveShifted(s, v, args, k, k);
      case Colon =>
        assert [] + ([v] + args) == [v] + args && [] + args == args;
        ResolveNumberedExtend(Colon, s, [], [v] + args, k, k);
        ResolveNumberedExtend(Colon, s, [], args, k, k);
      case Question =>
        assert ([v] + args)[k + 1..] == args[k..];
        ResolveMarksShift(s, args, k, [v] + args, k + 1);
    }
  }

  /** The new values: the tenant, then the old values. */
  lemma NewValuesResolve(style: Style, values: string, v: Value, args: seq<Value>)
    requires SlotsNameArgs(style, values, args)
    requires style == Question ==> Count(values, '?') <= |args|
    ensures Resolve(style, Placeholder(style, 1) + ", " + ShiftedText(style, values), [v] + args, 0) ==
            [Bound(v)] + (Lits(", ") + Resolve(style, values, args, 0))
    ensures style == Question ==>
              Count(Placeholder(style, 1) + ", " + ShiftedText(style, values), '?') == 1 + Count(values, '?')
  {
    hide *;
    var mark, text := Placeholder(style, 1), ShiftedText(style, values);
    var args' := [v] + args;
    MarkResolves(style, v, args);
    CommaCuts(mark, text);
    ResolveConcat(style, mark, ", " + text, args', 0);
    ResolveConcat(style, ", ", text, args', Count(mark, '?'));
    ResolvePlain(style, ", ", args', Count(mark, '?'));
    ResolveMoved(style, values, v, args, 0);
    CountConcat(mark, ", " + text, '?');
    CountConcat(", ", text, '?');
    MarkCounts([v]);
    QuestionText(values);
  }

  lemma CommaCuts(mark: string, text: string)
    ensures mark + ", " + text == mark + (", " + text) && Plain(", ")
    ensures SafeCut(mark, ", " + text) && SafeCut(", ", text)
  {
    CutAfterSpace(", ", text);
    assert (", " + text)[0] == ',';
  }

  lemma QuestionText(s: string)
    ensures ShiftedText(Question, s) == s
  {
  }

  lemma MarkResolves(style: Style, v: Value, args: seq<Value>)
    ensures Resolve(style, Placeholder(style, 1), [v] + args, 0) == [Bound(v)]
    ensures Count(Placeholder(style, 1), '?') == MarkCount(style, 1)
  {
    if style == Question {
      assert "?"[1..] == "";
    } else {
      ResolveSlot(style, 1, [v] + args, 0);
      NumeralHasNoMark(style, 1);
    }
  }

  ghost predicate AllSlotsNameArgs(style: Style, q: InsertQuery, args: seq<Value>) {
    && SlotsNameArgs(style, q.first, args) && SlotsNameArgs(style, q.tail, args)
    && forall r :: r in q.more ==> SlotsNameArgs(style, r, args)
  }

  lemma {:induction false} RowsMoved(style: Style, rows: seq<string>, v: Value, args: seq<Value>, k: nat)
    requires forall r :: r in rows ==> SlotsNameArgs(style, r, args)
    requires style == Question ==> k + RowMarks(rows) <= |args|
    ensures RowItems(style, ShiftedRows(style, rows), [v] + args, k + MarkCount(style, 1)) ==
            RowItems(style, rows, args, k)
    ensures style == Question ==> RowMarks(ShiftedRows(style, rows)) == RowMarks(rows)
    decreases |rows|
  {
    hide *;
    ShiftedRowsCons(style, rows);
    RowItemsUnfold(style, rows, args, k);
    RowItemsUnfold(style, ShiftedRows(style, rows), [v] + args, k + MarkCount(style, 1));
    if rows != [] {
      var shifted, args', n := ShiftedRows(style, rows), [v] + args, Count(rows[0], '?');
      assert rows[0] in rows;
      RowsMoved(style, rows[1..], v, args, k + n);
      ResolveMoved(style, rows[0], v, args, k);
      RowItemsIgnoreMarks(style, shifted[1..], args', k + MarkCount(style, 1) + Count(shifted[0], '?'),
                          k + n + MarkCount(style, 1));
      QuestionText(rows[0]);
    }
  }

  lemma ShiftedRowsCons(style: Style, rows: seq<string>)
    ensures |ShiftedRows(style, rows)| == |rows|
    ensures rows != [] ==> ShiftedRows(style, rows)[0] == ShiftedText(style, rows[0])
                           && ShiftedRows(style, rows)[1..] == ShiftedRows(style, rows[1..])
  {
    hide ShiftedText;
  }

  lemma RowItemsUnfold(style: Style, rows: seq<string>, args: seq<Value>, k: nat)
    ensures rows == [] ==> RowItems(style, rows, args, k) == [] && RowMarks(rows) == 0
    ensures rows != [] ==>
              && RowItems(style, rows, args, k) ==
                 [Items(Resolve(style, rows[0], args, k))] + RowItems(style, rows[1..], args, k + Count(rows[0], '?'))
              && RowMarks(rows) == Count(rows[0], '?') + RowMarks(rows[1..])
  {
    hide Items, Resolve, Count;
  }

  lemma {:induction false} RowItemsIgnoreMarks(style: Style, rows: seq<string>, args: seq<Value>, j: nat, k: nat)
    ensures style != Question ==> RowItems(style, rows, args, j) == RowItems(style, rows, args, k)
    decreases |rows|
  {
    hide Items, Resolve, Count;
    if rows != [] {
      NumbersIgnoreMarks(style, rows[0], args, j, k);
      RowItemsIgnoreMarks(style, rows[1..], args, j + Count(rows[0], '?'), k + Count(rows[0], '?'));
    }
  }

  /** Binding preservation for INSERT: the first row gets the tenant in front, in the place of the new column; every old
      value of every row keeps its binding, and so does the text after the rows. */
  lemma InsertPreservesBindings(config: Config, style: Style, q: InsertQuery, v: Value, args: seq<Value>)
    requires GoodInsert(config, q)
    requires config.tenantColumn != "" && Simple(Lits(config.tenantColumn)) && config.tenantColumn[0] != ' '
    requires Plain(config.tenantColumn) && Plain(q.table) && Plain(Joined(q.columns))
    requires AllSlotsNameArgs(style, q, args)
    requires style == Question ==> Count(q.first, '?') + RowMarks(q.more) + Count(q.tail, '?') <= |args|
    ensures var q', args' := InsertRewrite(config, style, q), [v] + args;
            && InjectInsert(config, style, InsertText(q), v, args) == Ok((InsertText(q'), args'))
            && ColumnItems(style, q', args') == [Lits(config.tenantColumn)] + ColumnItems(style, q, args)
            && FirstItems(style, q', args') == [[Bound(v)]] + FirstItems(style, q, args)
            && MoreItems(style, q', args') == MoreItems(style, q, args)
            && TailPieces(style, q', args') == TailPieces(style, q, args)
  {
    hide *;
    InsertTextIs(config, style, q, v, args);
    var q', args', column := InsertRewrite(config, style, q), [v] + args, config.tenantColumn;
    RewriteParts(config, style, q);
    SlotsOfInsert(style, q, args);
    PlainColumns(column, Joined(q.columns));
    ResolvePlain(style, q.table, args, 0);
    ResolvePlain(style, Joined(q.columns), args, 0);
    ResolvePlain(style, column + ", " + Joined(q.columns), args', 0);
    NewValuesResolve(style, q.first, v, args);
    LitsCons(column, Joined(q.columns));
    ItemsCons(Lits(column), Lits(Joined(q.columns)));
    BoundIsItem(v);
    ItemsCons([Bound(v)], Resolve(style, q.first, args, 0));
    InsertUnfold(style, q, args);
    InsertUnfold(style, q', args');
    MarkCounts([v]);
    var k, j := Count(q.first, '?'), Count(q'.first, '?');
    RowsMoved(style, q.more, v, args, if style == Question then k else 0);
    RowItemsIgnoreMarks(style, q'.more, args', j, MarkCount(style, 1));
    RowItemsIgnoreMarks(style, q.more, args, k, 0);
    ResolveMoved(style, q.tail, v, args, if style == Question then k + RowMarks(q.more) else 0);
    NumbersIgnoreMarks(style, q'.tail, args', j + RowMarks(q'.more), MarkCount(style, 1));
    NumbersIgnoreMarks(style, q.tail, args, k + RowMarks(q.more), 0);
  }

  lemma SlotsOfInsert(style: Style, q: InsertQuery, args: seq<Value>)
    requires AllSlotsNameArgs(style, q, args)
    ensures SlotsNameArgs(style, q.first, args) && SlotsNameArgs(style, q.tail, args)
    ensures forall r :: r in q.more ==> SlotsNameArgs(style, r, args)
  {
    hide SlotsNameArgs;
  }

  /** The rewritten INSERT still has as many values as columns in every row if and only if it has one row only: the
      others do not get a value for the new column. */
  lemma InsertFitsIff(config: Config, style: Style, q: InsertQuery, v: Value, args: seq<Value>)
    requires GoodInsert(config, q)
    requires config.tenantColumn != "" && Simple(Lits(config.tenantColumn)) && config.tenantColumn[0] != ' '
    requires Plain(config.tenantColumn) && Plain(q.table) && Plain(Joined(q.columns))
    requires AllSlotsNameArgs(style, q, args) && Fits(style, q, args)
    requires style == Question ==> Count(q.first, '?') + RowMarks(q.more) + Count(q.tail, '?') <= |args|
    ensures Fits(style, InsertRewrite(config, style, q), [v] + args) <==> q.more == []
  {
    hide *;
    InsertPreservesBindings(config, style, q, v, args);
    FitsUnfold(style, q, args);
    FitsUnfold(style, InsertRewrite(config, style, q), [v] + args);
    MoreIsMore(style, q, args);
    if q.more != [] {
      assert MoreItems(style, q, args)[0] in MoreItems(style, q, args);
    }
  }

  lemma FitsUnfold(style: Style, q: InsertQuery, args: seq<Value>)
    ensures Fits(style, q, args) <==>
            && |FirstItems(style, q, args)| == |ColumnItems(style, q, args)|
            && forall r :: r in MoreItems(style, q, args) ==> |r| == |ColumnItems(style, q, args)|
  {
    hide FirstItems, ColumnItems, MoreItems;
  }

  lemma MoreIsMore(style: Style, q: InsertQuery, args: seq<Value>)
    ensures |MoreItems(style, q, args)| == |q.more|
  {
  }

  lemma NumbersIgnoreMarks(style: Style, s: string, args: seq<Value>, j: nat, k: nat)
    ensures style != Question ==> Resolve(style, s, args, j) == Resolve(style, s, args, k)
  {
  }

  lemma RewriteParts(config: Config, style: Style, q: InsertQuery)
    ensures var q' := InsertRewrite(config, style, q);
            && q'.table == q.table && Joined(q'.columns) == config.tenantColumn + ", " + Joined(q.columns)
            && q'.first == Placeholder(style, 1) + ", " + ShiftedText(style, q.first)
            && q'.more == ShiftedRows(style, q.more) && q'.tail == ShiftedText(style, q.tail)
  {
  }

  lemma PlainColumns(column: string, columns: string)
    requires Plain(column) && Plain(columns)
    ensures Plain(column + ", " + columns)
  {
  }

  lemma LitsCons(column: string, columns: string)
    requires column != "" && column[0] != ' '
    ensures Lits(column + ", " + columns) == Lits(column) + (Lits(", ") + Lits(columns))
    ensures Lits(column) != [] && Lits(column)[0] != Lit(' ')
  {
  }

  lemma BoundIsItem(v: Value)
    ensures Simple([Bound(v)]) && [Bound(v)][0] != Lit(' ')
  {
  }

  lemma InsertUnfold(style: Style, q: InsertQuery, args: seq<Value>)
    ensures var k := Count(q.table, '?') + Count(Joined(q.columns), '?');
            && ColumnItems(style, q, args) == Items(Resolve(style, Joined(q.columns), args, Count(q.table, '?')))
            && FirstItems(style, q, args) == Items(Resolve(style, q.first, args, k))
            && MoreItems(style, q, args) == RowItems(style, q.more, args, k + Count(q.first, '?'))
            && TailPieces(style, q, args) ==
               Resolve(style, q.tail, args, k + Count(q.first, '?') + RowMarks(q.more))
  {
    hide Resolve, Count, Items, RowItems, RowMarks;
  }
}
