/** Locking clauses: FOR UPDATE and FOR SHARE end no FROM clause for the extraction, which reads them as part of the
    last table reference or of the last ON condition. */
module LockingClauses {
  import opened Text
  import opened Keywords
  import opened FromClause

  /** The words of a locking clause: `keyword` is FOR in any letter case, `rest` what is locked and how. */
  ghost predicate Locking(keyword: string, rest: string) {
    && Upper(keyword) == "FOR" && NoSpaces(keyword)
    && rest != "" && !IsSpace(rest[0]) && !IsSpace(rest[|rest| - 1]) && rest[|rest| - 1] != ','
    && CleanOf(rest, Reserved())
  }

  function LockWords(keyword: string, rest: string): string {
    keyword + " " + rest
  }

  /** References written in one of the two usual forms. */
  ghost predicate Written(c: Clause) {
    !c.form.Verbatim? && forall j :: j in c.joins ==> !j.form.Verbatim?
  }

  /** A reference whose alias is still read as the alias when more words follow. */
  predicate KeepsAlias(t: TableRef, form: RefForm) {
    t.alias != "" && (form.WithAs? || !EqualFold(t.alias, "AS"))
  }

  /** The clause ends in an ON condition or in a reference that keeps its alias. */
  predicate LockSafe(c: Clause) {
    if c.joins == [] then KeepsAlias(c.main, c.form)
    else
      var last := c.joins[|c.joins| - 1];
      last.on.Some? || KeepsAlias(last.table, last.form)
  }

  // ----- What the words do to one reference -----

  function Followed(t: TableRef, form: RefForm, words: string): string {
    RefText(t, form) + " " + words
  }

  lemma FollowedFields(t: TableRef, form: RefForm, keyword: string, rest: string)
    requires GoodRef(t, form) && !form.Verbatim? && Locking(keyword, rest)
    ensures Fields(Followed(t, form, LockWords(keyword, rest))) ==
            (if t.alias == "" then [t.name] else if form.WithAs? then [t.name, "AS", t.alias] else [t.name, t.alias]) +
            [keyword] + Fields(rest)
  {
    hide Fields, Clean;
    AsWord();
    var words := LockWords(keyword, rest);
    assert keyword != "";
    FieldsSpaced(keyword, rest);
    if t.alias == "" {
      FieldsSpaced(t.name, words);
    } else {
      FieldsSpaced(t.alias, words);
      if form.WithAs? {
        FieldsSpaced("AS", t.alias + " " + words);
        FieldsSpaced(t.name, "AS" + " " + (t.alias + " " + words));
        assert Followed(t, form, words) == t.name + " " + ("AS" + " " + (t.alias + " " + words));
      } else {
        FieldsSpaced(t.name, t.alias + " " + words);
        assert Followed(t, form, words) == t.name + " " + (t.alias + " " + words);
      }
    }
  }

  lemma FollowedEnds(t: TableRef, form: RefForm, keyword: string, rest: string)
    requires GoodRef(t, form) && !form.Verbatim? && Locking(keyword, rest)
    ensures var s := Followed(t, form, LockWords(keyword, rest));
            s != "" && !IsSpace(s[0]) && !IsSpace(s[|s| - 1]) && s[|s| - 1] != ','
  {
    hide Clean, Fields;
    RefTextEnds(t, form);
  }

  lemma FieldsOfWord(rest: string)
    requires rest != "" && !IsSpace(rest[0])
    ensures |Fields(rest)| >= 1
  {
  }

  lemma KeywordIsNotAs(keyword: string, rest: string)
    requires Locking(keyword, rest)
    ensures keyword != "" && !EqualFold(keyword, "AS") && Locking(keyword, rest)
    ensures forall alias :: alias == "" || EqualFold(alias, "AS") ==> alias != keyword
    ensures EqualFold("AS", "AS")
  {
    assert |Lower(keyword)| == 3 && |Lower("AS")| == 2;
  }

  /** With a locking clause behind it, a reference is read as itself or with the word FOR as its alias. */
  lemma ParseFollowed(t: TableRef, form: RefForm, keyword: string, rest: string)
    requires GoodRef(t, form) && !form.Verbatim? && Locking(keyword, rest)
    ensures var s := Followed(t, form, LockWords(keyword, rest));
            && ParseTableRef(s) == (if KeepsAlias(t, form) then t else TableRef(t.name, keyword))
            && Trimmed(s) && s != ""
    ensures !KeepsAlias(t, form) ==> t != TableRef(t.name, keyword)
  {
    var s := Followed(t, form, LockWords(keyword, rest));
    FollowedEnds(t, form, keyword, rest);
    FollowedFields(t, form, keyword, rest);
    FieldsOfWord(rest);
    KeywordIsNotAs(keyword, rest);
    hide *;
    NoTrimming(s);
    ParseWords(s);
    ParseCases(t, form, keyword, Fields(s), Fields(rest));
  }

  lemma ParseCases(t: TableRef, form: RefForm, keyword: string, ws: seq<string>, more: seq<string>)
    requires ws == (if t.alias == "" then [t.name] else if form.WithAs? then [t.name, "AS", t.alias]
                    else [t.name, t.alias]) +
                   [keyword] + more
    requires |more| >= 1 && keyword != "" && !EqualFold(keyword, "AS") && EqualFold("AS", "AS")
    requires forall alias :: alias == "" || EqualFold(alias, "AS") ==> alias != keyword
    ensures |ws| >= 3
    ensures (if EqualFold(ws[1], "AS") then TableRef(ws[0], ws[2]) else TableRef(ws[0], ws[1])) ==
            (if KeepsAlias(t, form) then t else TableRef(t.name, keyword))
    ensures !KeepsAlias(t, form) ==> t != TableRef(t.name, keyword)
  {
    hide EqualFold;
  }

  // ----- The clause the extraction sees -----

  function LastFollowed(j: JoinClause, words: string): JoinClause {
    match j.on
    case Some(c) => j.(on := Some(c + " " + words))
    case None =>
      var text := Followed(j.table, j.form, words);
      j.(table := ParseTableRef(text), form := Verbatim(text))
  }

  /** The clause whose text is that of `c` with the words behind it. */
  function WithWords(c: Clause, words: string): Clause {
    if c.joins == [] then
      var text := Followed(c.main, c.form, words);
      Clause(ParseTableRef(text), Verbatim(text), [])
    else
      var n := |c.joins| - 1;
      c.(joins := c.joins[..n] + [LastFollowed(c.joins[n], words)])
  }

  lemma FollowedGood(t: TableRef, form: RefForm, keyword: string, rest: string)
    requires GoodRef(t, form) && !form.Verbatim? && Locking(keyword, rest)
    ensures var s := Followed(t, form, LockWords(keyword, rest)); GoodRef(ParseTableRef(s), Verbatim(s))
  {
    hide *;
    var words := LockWords(keyword, rest);
    var s := Followed(t, form, words);
    ParseFollowed(t, form, keyword, rest);
    RefTextCleanAll(t, form);
    LockWordsClean(keyword, rest);
    FollowedClean(RefText(t, form), words);
    FollowedUnfold(t, form, words);
    assert t.name != "" by { NamedRef(t, form); }
    ReadsUnfold(s, ParseTableRef(s));
  }

  lemma FollowedUnfold(t: TableRef, form: RefForm, words: string)
    ensures Followed(t, form, words) == RefText(t, form) + " " + words
  {
    hide RefText;
  }

  lemma NamedRef(t: TableRef, form: RefForm)
    requires GoodRef(t, form) && !form.Verbatim?
    ensures t.name != ""
  {
  }

  lemma ReadsUnfold(text: string, t: TableRef)
    requires text != "" && Trimmed(text) && CleanOf(text, Reserved()) && ParseTableRef(text) == t && t.name != ""
    ensures GoodRef(t, Verbatim(text))
  {
    hide Clean, ParseTableRef, Reserved;
  }

  lemma LockWordsClean(keyword: string, rest: string)
    requires Locking(keyword, rest)
    ensures CleanOf(LockWords(keyword, rest), Reserved())
  {
    ReservedWords();
    ForIsNotReserved();
    hide Clean, Reserved, IsWord;
    forall w | w in Reserved() ensures Clean(LockWords(keyword, rest), w) {
      ReservedNoSpaces(w);
      CleanWord(keyword, w);
      CleanSpace(keyword, rest, w);
    }
  }

  lemma ReservedNoSpaces(w: string)
    requires IsWord(w)
    ensures NoSpaces(w) && w != ""
  {
  }

  lemma ForIsNotReserved()
    ensures "FOR" !in Reserved()
  {
  }

  lemma FollowedClean(a: string, words: string)
    requires CleanOf(a, Reserved()) && CleanOf(words, Reserved())
    ensures CleanOf(a + " " + words, Reserved())
  {
    ReservedWords();
    hide Clean, Reserved, IsWord;
    forall w | w in Reserved() ensures Clean(a + " " + words, w) {
      ReservedNoSpaces(w);
      CleanSpace(a, words, w);
    }
  }

  lemma LastFollowedGood(j: JoinClause, keyword: string, rest: string)
    requires GoodJoin(j) && !j.form.Verbatim? && Locking(keyword, rest)
    ensures GoodJoin(LastFollowed(j, LockWords(keyword, rest)))
  {
    hide ParseTableRef, CleanOf, Locking, Followed, LockWords, Reserved;
    match j.on {
      case None => FollowedGood(j.table, j.form, keyword, rest);
      case Some(c) =>
        LockWordsClean(keyword, rest);
        FollowedClean(c, LockWords(keyword, rest));
    }
  }

  lemma WithWordsGood(c: Clause, keyword: string, rest: string)
    requires GoodClause(c) && Written(c) && Locking(keyword, rest)
    ensures GoodClause(WithWords(c, LockWords(keyword, rest)))
  {
    hide GoodRef, GoodJoin, ParseTableRef, Locking, Followed, LockWords, LastFollowed;
    if c.joins == [] {
      FollowedGood(c.main, c.form, keyword, rest);
    } else {
      var n := |c.joins| - 1;
      assert c.joins[n] in c.joins;
      LastFollowedGood(c.joins[n], keyword, rest);
    }
  }

  lemma LastFollowedText(j: JoinClause, words: string)
    ensures RefText(LastFollowed(j, words).table, LastFollowed(j, words).form) + OnText(LastFollowed(j, words).on) ==
            RefText(j.table, j.form) + OnText(j.on) + (" " + words)
    ensures LastFollowed(j, words).kind == j.kind
  {
    hide ParseTableRef;
    match j.on {
      case None =>
        assert RefText(j.table, j.form) + "" == RefText(j.table, j.form);
      case Some(c) =>
        assert " ON " + (c + " " + words) == " ON " + c + (" " + words);
    }
  }

  lemma WithWordsText(c: Clause, keyword: string, rest: string)
    requires GoodClause(c) && Written(c) && Locking(keyword, rest)
    ensures var words := LockWords(keyword, rest); ClauseText(WithWords(c, words)) == ClauseText(c) + (" " + words)
  {
    hide *;
    var words := LockWords(keyword, rest);
    WithWordsGood(c, keyword, rest);
    if c.joins == [] {
      MainFollowedText(c, words);
    } else {
      var n := |c.joins| - 1;
      var last, init := c.joins[n], c.joins[..n];
      assert c.joins == init + [last] && last in c.joins;
      GoodLast(c, words);
      JoinsTextConcat(init, [last]);
      JoinsTextConcat(init, [LastFollowed(last, words)]);
      OneJoinText(last);
      OneJoinText(LastFollowed(last, words));
      LastFollowedText(last, words);
      ClauseTextUnfold(c, words);
      RegroupLast(RefText(c.main, c.form), JoinsText(init), JoinKeywords()[last.kind], RefText(last.table, last.form),
                  OnText(last.on), " " + words);
    }
  }

  lemma MainFollowedText(c: Clause, words: string)
    requires c.joins == []
    ensures ClauseText(WithWords(c, words)) == ClauseText(c) + (" " + words)
  {
    hide ParseTableRef;
  }

  lemma GoodLast(c: Clause, words: string)
    requires GoodClause(c) && GoodClause(WithWords(c, words)) && c.joins != []
    ensures var n := |c.joins| - 1;
            && GoodJoin(c.joins[n]) && GoodJoin(LastFollowed(c.joins[n], words))
            && forall j :: j in c.joins[..n] ==> GoodJoin(j)
  {
    hide GoodJoin, GoodRef, LastFollowed;
    var n := |c.joins| - 1;
    assert c.joins[n] in c.joins;
    assert LastFollowed(c.joins[n], words) in WithWords(c, words).joins;
  }

  lemma OneJoinText(j: JoinClause)
    requires GoodJoin(j)
    ensures JoinsText([j]) == JoinKeywords()[j.kind] + (RefText(j.table, j.form) + OnText(j.on))
  {
    hide RefText, OnText, JoinKeywords;
    assert [j][1..] == [];
    assert OnText(j.on) + "" == OnText(j.on);
  }

  lemma ClauseTextUnfold(c: Clause, words: string)
    requires c.joins != []
    ensures var n := |c.joins| - 1;
            && ClauseText(c) == RefText(c.main, c.form) + JoinsText(c.joins)
            && ClauseText(WithWords(c, words)) ==
               RefText(c.main, c.form) + JoinsText(c.joins[..n] + [LastFollowed(c.joins[n], words)])
  {
    hide RefText, JoinsText, LastFollowed;
  }

  lemma RegroupLast(main: string, init: string, kw: string, ref: string, on: string, words: string)
    ensures main + (init + (kw + (ref + on + words))) == main + (init + (kw + (ref + on))) + words
  {
  }

  // ----- Which tables are found -----

  /** Joins with the same tables, ON conditions in the same places. */
  ghost predicate SameJoins(js: seq<JoinClause>, js': seq<JoinClause>) {
    |js'| == |js| && forall i :: 0 <= i < |js| ==> js'[i].table == js[i].table && (js'[i].on.Some? <==> js[i].on.Some?)
  }

  lemma SameHasOn(js: seq<JoinClause>, js': seq<JoinClause>)
    requires SameJoins(js, js')
    ensures HasOn(js) <==> HasOn(js')
  {
    if HasOn(js) {
      var i :| 0 <= i < |js| && js[i].on.Some?;
      assert js'[i] in js';
    }
    if HasOn(js') {
      var i :| 0 <= i < |js'| && js'[i].on.Some?;
      assert js[i] in js;
    }
  }

  lemma {:induction false} SameAfterFirstOn(js: seq<JoinClause>, js': seq<JoinClause>)
    requires SameJoins(js, js')
    ensures SameJoins(AfterFirstOn(js), AfterFirstOn(js'))
  {
    if js != [] && js[0].on.None? {
      SameAfterFirstOn(js[1..], js'[1..]);
    }
  }

  lemma {:induction false} SameKept(js: seq<JoinClause>, js': seq<JoinClause>)
    requires SameJoins(js, js')
    ensures Kept(js') == Kept(js) && Tables(js') == Tables(js) && (OnFirst(js') <==> OnFirst(js))
    decreases |js|
  {
    hide *;
    SameUnfold(js, js');
    KeptUnfold(js);
    KeptUnfold(js');
    if js != [] {
      SameHasOn(js[1..], js'[1..]);
      SameKept(js[1..], js'[1..]);
      SameAfterFirstOn(js[1..], js'[1..]);
      AfterFirstOnIn(js[1..]);
      SameKept(AfterFirstOn(js[1..]), AfterFirstOn(js'[1..]));
    }
  }

  lemma SameUnfold(js: seq<JoinClause>, js': seq<JoinClause>)
    requires SameJoins(js, js')
    ensures |js'| == |js| && (OnFirst(js') <==> OnFirst(js))
    ensures js == [] ==> Tables(js') == Tables(js)
    ensures js != [] ==>
              && js'[0].table == js[0].table && (js'[0].on.Some? <==> js[0].on.Some?) && SameJoins(js[1..], js'[1..])
              && Tables(js) == [js[0].table] + Tables(js[1..]) && Tables(js') == [js'[0].table] + Tables(js'[1..])
  {
    SameOnFirst(js, js');
    hide OnFirst;
  }

  lemma {:induction false} TablesAt(js: seq<JoinClause>, i: nat)
    requires i < |js|
    ensures Tables(js)[i] == js[i].table
  {
    if i > 0 {
      TablesAt(js[1..], i - 1);
    }
  }

  lemma SameOnFirst(js: seq<JoinClause>, js': seq<JoinClause>)
    requires |js'| == |js| && forall i :: 0 <= i < |js| ==> (js'[i].on.Some? <==> js[i].on.Some?)
    ensures OnFirst(js') <==> OnFirst(js)
  {
  }

  /** The clause with a locking clause behind it has the tables of the clause if and only if it is safe. */
  lemma WithWordsTables(c: Clause, keyword: string, rest: string)
    requires GoodClause(c) && Written(c) && Locking(keyword, rest)
    ensures var c' := WithWords(c, LockWords(keyword, rest));
            && |c'.joins| == |c.joins| && (OnFirst(c'.joins) <==> OnFirst(c.joins))
            && (LockSafe(c) ==> c'.main == c.main && SameJoins(c.joins, c'.joins))
            && ([c'.main] + Tables(c'.joins) == [c.main] + Tables(c.joins) <==> LockSafe(c))
  {
    hide GoodRef, ParseTableRef, Locking, LockWords, KeepsAlias, Followed, OnFirst;
    var words := LockWords(keyword, rest);
    var c' := WithWords(c, words);
    if c.joins == [] {
      FollowedRef(c.main, c.form, keyword, rest);
      assert ([c'.main] + Tables(c'.joins))[0] == c'.main && ([c.main] + Tables(c.joins))[0] == c.main;
    } else {
      var n := |c.joins| - 1;
      assert c.joins[n] in c.joins;
      SameOnFirst(c.joins, c'.joins);
      if c.joins[n].on.None? {
        FollowedRef(c.joins[n].table, c.joins[n].form, keyword, rest);
      }
      if LockSafe(c) {
        SameKept(c.joins, c'.joins);
      } else {
        TablesAt(c.joins, n);
        TablesAt(c'.joins, n);
        assert ([c'.main] + Tables(c'.joins))[n + 1] != ([c.main] + Tables(c.joins))[n + 1];
      }
    }
  }

  lemma FollowedRef(t: TableRef, form: RefForm, keyword: string, rest: string)
    requires GoodRef(t, form) && !form.Verbatim? && Locking(keyword, rest)
    ensures ParseTableRef(Followed(t, form, LockWords(keyword, rest))) == t <==> KeepsAlias(t, form)
  {
    hide *;
    ParseFollowed(t, form, keyword, rest);
  }

  /** Extraction from a clause with a locking clause behind it and no WHERE. */
  lemma LockedRoundTrip(head: string, c: Clause, keyword: string, rest: string, tail: string)
    requires Clean(head, "FROM") && Clean(head, "WHERE") && GoodClause(c) && Written(c)
    requires Locking(keyword, rest) && EndsTables(tail)
    ensures var words := LockWords(keyword, rest);
            ExtractTables(head + " FROM " + (ClauseText(c) + (" " + words)) + tail) ==
            Ok([WithWords(c, words).main] + Kept(WithWords(c, words).joins))
  {
    hide *;
    WithWordsGood(c, keyword, rest);
    WithWordsText(c, keyword, rest);
    FromRoundTrip(head, WithWords(c, LockWords(keyword, rest)), tail);
  }

  /** With a locking clause and no WHERE, every table is found if and only if no join without ON stands before a join
      with ON and the FROM clause ends in an ON condition or in a reference that keeps its alias. */
  lemma LockedTablesFound(head: string, c: Clause, keyword: string, rest: string, tail: string)
    requires Clean(head, "FROM") && Clean(head, "WHERE") && GoodClause(c) && Written(c)
    requires Locking(keyword, rest) && EndsTables(tail)
    ensures var found := ExtractTables(head + " FROM " + (ClauseText(c) + (" " + LockWords(keyword, rest))) + tail);
            found == Ok([c.main] + Tables(c.joins)) <==> OnFirst(c.joins) && LockSafe(c)
  {
    hide *;
    var c' := WithWords(c, LockWords(keyword, rest));
    LockedRoundTrip(head, c, keyword, rest, tail);
    WithWordsTables(c, keyword, rest);
    KeptAll(c'.joins);
    assert |[c'.main] + Kept(c'.joins)| == 1 + |Kept(c'.joins)|;
  }

  /** A safe clause is extracted as if there were no locking clause behind it. */
  lemma LockedKept(head: string, c: Clause, keyword: string, rest: string, tail: string)
    requires Clean(head, "FROM") && Clean(head, "WHERE") && GoodClause(c) && Written(c)
    requires Locking(keyword, rest) && EndsTables(tail) && LockSafe(c)
    ensures ExtractTables(head + " FROM " + (ClauseText(c) + (" " + LockWords(keyword, rest))) + tail) ==
            Ok([c.main] + Kept(c.joins))
  {
    hide *;
    LockedRoundTrip(head, c, keyword, rest, tail);
    WithWordsTables(c, keyword, rest);
    SameKept(c.joins, WithWords(c, LockWords(keyword, rest)).joins);
  }
}
