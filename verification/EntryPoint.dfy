/** What the rewriting entry point answers for a statement as it is written: whatever the cache holds, the theorems
    about the four rewriters carry over to its result. */
module EntryPoint {
  import opened Text
  import opened Placeholders
  import opened Keywords
  import opened FromClause
  import opened Rewriter
  import opened InsertRewriter
  import opened Relations
  import opened TableReads
  import opened TenantDb
  import SelectMeaning
  import SliceMeaning
  import MutationMeaning
  import MutationSlice

  // ----- Meaning and bindings -----

  lemma OpensFirst(a: string, b: string, word: string)
    requires OpensWithWord(a, word)
    ensures OpensWithWord(a + b, word)
  {
    assert (a + b)[..|word|] == a[..|word|];
  }

  /** The answer to a printed SELECT, run on the whole database, gives what the query gives on the tenant's slice. */
  lemma SelectAnswered<R(!new)>(config: Config, style: Style, q: SelectMeaning.SelectQuery, v: Value, args: seq<Value>,
                                hit: bool, r: Outcome<Rewritten>, db: Database, sense: Sense,
                                finish: SliceMeaning.Finish<R>)
    requires OpensWithWord(q.columns, "SELECT")
    requires Answers(config, style, StatementText(SelectMeaning.StatementOf(q)), v, args, hit, r)
    requires SelectMeaning.Rewritable(config, style, q, args) && SelectMeaning.AllFound(config, q) && v != Null
    requires SliceMeaning.ClosedConditions(style, q, args) && SliceMeaning.ClosedOutput(style, q, args)
    requires Local(sense) && SliceMeaning.LocalFinish(finish)
    ensures var q' := SelectMeaning.Rewrite(config, style, q);
            && r.Ok? && r.value.0 == StatementText(SelectMeaning.StatementOf(q'))
            && SliceMeaning.Run(style, q', r.value.1, db, sense, finish) ==
               SliceMeaning.Run(style, q, args, Slice(db, config, v), sense, finish)
  {
    hide *;
    SelectOpens(q);
    AnswersWord(config, style, StatementText(SelectMeaning.StatementOf(q)), v, args, hit, r);
    SliceMeaning.SelectPreservesMeaning(config, style, q, v, args, db, sense, finish);
  }

  lemma SelectOpens(q: SelectMeaning.SelectQuery)
    requires OpensWithWord(q.columns, "SELECT")
    ensures OpensWithWord(StatementText(SelectMeaning.StatementOf(q)), "SELECT")
  {
    hide *;
    SelectMeaning.SelectTextSplits(q);
    var from, rest := " FROM " + ClauseText(q.from), WhereText(q.cond) + q.tail;
    assert q.columns + " FROM " + ClauseText(q.from) + rest == q.columns + (from + rest);
    OpensFirst(q.columns, from + rest, "SELECT");
  }

  lemma AnswersWord(config: Config, style: Style, query: string, v: Value, args: seq<Value>, hit: bool,
                    r: Outcome<Rewritten>)
    requires Answers(config, style, query, v, args, hit, r)
    ensures OpensWithWord(query, "SELECT") ==> r == InjectSelect(config, style, query, v, args)
    ensures OpensWithWord(query, "UPDATE") ==> r == InjectUpdate(config, style, query, v, args)
    ensures OpensWithWord(query, "DELETE") ==> r == InjectDelete(config, style, query, v, args)
  {
    hide InjectSelect, InjectUpdate, InjectDelete, InjectInsert, OpensWithWord, TenantLast;
  }

  lemma AnswersMutation(config: Config, style: Style, m: MutationSlice.Mutation, v: Value, args: seq<Value>, hit: bool,
                        r: Outcome<Rewritten>)
    requires Answers(config, style, StatementText(MutationSlice.StatementFor(m)), v, args, hit, r)
    ensures r == if m.UpdateOf? then InjectUpdate(config, style, StatementText(MutationSlice.StatementFor(m)), v, args)
                 else InjectDelete(config, style, StatementText(MutationSlice.StatementFor(m)), v, args)
  {
    hide *;
    var s := MutationSlice.StatementFor(m);
    TextOpens(s, WhereText(s.cond) + s.tail);
    MutationOpens(m);
    var word := if m.UpdateOf? then "UPDATE" else "DELETE";
    OpensFirst(s.head, WhereText(s.cond) + s.tail, word);
    AnswersWord(config, style, StatementText(s), v, args, hit, r);
  }

  lemma TextOpens(s: Statement, rest: string)
    requires rest == WhereText(s.cond) + s.tail
    ensures StatementText(s) == s.head + rest
  {
  }

  lemma MutationOpens(m: MutationSlice.Mutation)
    ensures OpensWithWord(MutationSlice.StatementFor(m).head, if m.UpdateOf? then "UPDATE" else "DELETE")
  {
    var head := MutationSlice.StatementFor(m).head;
    hide RefText;
    assert Upper("UPDATE") == "UPDATE" && Upper("DELETE") == "DELETE";
    hide Upper;
    assert head[..6] == if m.UpdateOf? then "UPDATE" else "DELETE";
  }

  /** The answer to a printed DELETE does to the database what the statement does to the tenant's slice. */
  lemma DeleteAnswered<R(!new)>(config: Config, style: Style, m: MutationSlice.Mutation, v: Value, args: seq<Value>,
                                hit: bool, r: Outcome<Rewritten>, db: Database, sense: Sense,
                                assign: MutationSlice.Assign, returning: MutationSlice.Returning<R>)
    requires m.DeleteOf? && Answers(config, style, StatementText(MutationSlice.StatementFor(m)), v, args, hit, r)
    requires MutationSlice.ReadyFor(config, style, m, args) && v != Null && MutationSlice.ClosedParts(style, m, args)
    requires Local(sense) && MutationSlice.LocalAssign(assign) && MutationSlice.LocalReturning(returning)
    ensures var m' := MutationSlice.WithEquation(config, style, m);
            && r.Ok? && r.value.0 == StatementText(MutationSlice.StatementFor(m'))
            && var after := MutationSlice.Execute(style, m', r.value.1, db, sense, assign, returning);
               var slice := MutationSlice.Execute(style, m, args, Slice(db, config, v), sense, assign, returning);
               && after.1 == slice.1 && Slice(after.0, config, v) == slice.0
               && after.0 == MutationSlice.Store(db, m.target, Fetch(after.0, m.target))
               && MutationMeaning.OtherRows(Fetch(after.0, m.target), config.tenantColumn, v) ==
                  MutationMeaning.OtherRows(Fetch(db, m.target), config.tenantColumn, v)
  {
    hide *;
    AnswersMutation(config, style, m, v, args, hit, r);
    MutationSlice.DeletePreservesMeaning(config, style, m, v, args, db, sense, assign, returning);
    MutationSlice.RunsAre(config, style, m, v, args, db, sense, assign, returning);
  }

  /** The answer to a printed UPDATE puts the tenant's rows, as the statement leaves the slice, in their places among
      the other tenants' rows. */
  lemma UpdateAnswered<R(!new)>(config: Config, style: Style, m: MutationSlice.Mutation, v: Value, args: seq<Value>,
                                hit: bool, r: Outcome<Rewritten>, db: Database, sense: Sense,
                                assign: MutationSlice.Assign, returning: MutationSlice.Returning<R>)
    requires m.UpdateOf? && Answers(config, style, StatementText(MutationSlice.StatementFor(m)), v, args, hit, r)
    requires MutationSlice.ReadyFor(config, style, m, args) && v != Null && MutationSlice.ClosedParts(style, m, args)
    requires Local(sense) && MutationSlice.LocalAssign(assign) && MutationSlice.LocalReturning(returning)
    ensures var m' := MutationSlice.WithEquation(config, style, m);
            && r.Ok? && r.value.0 == StatementText(MutationSlice.StatementFor(m'))
            && var after := MutationSlice.Execute(style, m', r.value.1, db, sense, assign, returning);
               var slice := MutationSlice.Execute(style, m, args, Slice(db, config, v), sense, assign, returning);
               var rows := Fetch(db, m.target);
               && after.1 == slice.1
               && |Fetch(slice.0, m.target)| == |OwnedRows(rows, config.tenantColumn, v)|
               && Fetch(after.0, m.target) ==
                  MutationMeaning.Weave(rows, Fetch(slice.0, m.target), config.tenantColumn, v)
               && after.0 == MutationSlice.Store(db, m.target, Fetch(after.0, m.target))
  {
    hide *;
    AnswersMutation(config, style, m, v, args, hit, r);
    MutationSlice.UpdatePreservesMeaning(config, style, m, v, args, db, sense, assign, returning);
    MutationSlice.RunsAre(config, style, m, v, args, db, sense, assign, returning);
  }

  /** The answer to a printed INSERT carries the tenant in front of its first row and keeps every other value; after a
      hit in the cache that is so under `?`. */
  lemma InsertAnswered(config: Config, style: Style, q: InsertQuery, v: Value, args: seq<Value>, hit: bool,
                       r: Outcome<Rewritten>)
    requires Answers(config, style, InsertText(q), v, args, hit, r) && (!hit || style == Question)
    requires GoodInsert(config, q)
    requires config.tenantColumn != "" && Simple(Lits(config.tenantColumn)) && config.tenantColumn[0] != ' '
    requires Plain(config.tenantColumn) && Plain(q.table) && Plain(Joined(q.columns))
    requires AllSlotsNameArgs(style, q, args)
    requires style == Question ==> Count(q.first, '?') + RowMarks(q.more) + Count(q.tail, '?') <= |args|
    ensures var q' := InsertRewrite(config, style, q);
            && r.Ok? && r.value.0 == InsertText(q')
            && ColumnItems(style, q', r.value.1) == [Lits(config.tenantColumn)] + ColumnItems(style, q, args)
            && FirstItems(style, q', r.value.1) == [[Bound(v)]] + FirstItems(style, q, args)
            && MoreItems(style, q', r.value.1) == MoreItems(style, q, args)
            && TailPieces(style, q', r.value.1) == TailPieces(style, q, args)
  {
    hide *;
    InsertOpens(q);
    AnswersInsert(config, style, InsertText(q), v, args, hit, r);
    InsertPreservesBindings(config, style, q, v, args);
  }

  lemma InsertOpens(q: InsertQuery)
    ensures OpensWithWord(InsertText(q), "INSERT")
  {
    hide TablePart, AfterFirst;
    assert Upper("INSERT") == "INSERT" && InsertText(q)[..6] == "INSERT";
  }

  lemma AnswersInsert(config: Config, style: Style, query: string, v: Value, args: seq<Value>, hit: bool,
                      r: Outcome<Rewritten>)
    requires Answers(config, style, query, v, args, hit, r) && OpensWithWord(query, "INSERT")
    requires !hit || style == Question
    ensures r == InjectInsert(config, style, query, v, args)
  {
    hide InjectSelect, InjectUpdate, InjectDelete, InjectInsert, OpensWithWord, TenantLast;
  }
}
