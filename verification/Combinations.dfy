/** The rows of a query as a choice among all combinations of rows of its tables. */
module Combinations {
  import opened Text
  import opened Placeholders
  import opened FromClause
  import opened Rewriter
  import opened Conditions
  import opened Relations

  // ----- All combinations -----

  function Nones(n: nat): (r: seq<Option<seq<Piece>>>)
    ensures |r| == n && forall i :: 0 <= i < n ==> r[i] == None
  {
    seq(n, _ => None)
  }

  /** One row of each table, in the order in which nested loops find them. */
  function AllCombinations(db: Database, tables: seq<TableRef>): seq<Env> {
    Envs(db, tables, Nones(|tables|), Always())
  }

  lemma CombinationsShape(db: Database, tables: seq<TableRef>)
    ensures forall e :: e in AllCombinations(db, tables) ==> EnvFor(e, tables)
  {
    EnvsShape(db, tables, Nones(|tables|), Always());
  }

  lemma CombinationsStep(db: Database, tables: seq<TableRef>)
    requires tables != []
    ensures var n := |tables| - 1;
            AllCombinations(db, tables) ==
            Extend(AllCombinations(db, tables[..n]), Qualifier(tables[n]), Fetch(db, tables[n]), None, Always())
  {
    hide Extend, Fetch, Qualifier;
    var n := |tables| - 1;
    assert Nones(|tables|)[..n] == Nones(n);
  }

  /** The combinations of the slice are those of the whole database whose rows of tenant tables are the tenant's. */
  lemma SliceCombinations(db: Database, tables: seq<TableRef>, config: Config, v: Value)
    ensures AllCombinations(Slice(db, config, v), tables) == TenantEnvs(AllCombinations(db, tables), config, tables, v)
  {
    SliceEnvs(db, tables, Nones(|tables|), Always(), config, v);
  }

  lemma {:induction false} InExtendOne(env: Env, qual: string, rows: seq<Row>, row: Row)
    requires row in rows
    ensures env + [Binding(qual, row)] in ExtendOne(env, qual, rows, None, Always())
  {
    if row != rows[0] {
      InExtendOne(env, qual, rows[1..], row);
    }
  }

  lemma {:induction false} InExtend(envs: seq<Env>, env: Env, qual: string, rows: seq<Row>, row: Row)
    requires env in envs && row in rows
    ensures env + [Binding(qual, row)] in Extend(envs, qual, rows, None, Always())
  {
    if env == envs[0] {
      InExtendOne(env, qual, rows, row);
    } else {
      InExtend(envs[1..], env, qual, rows, row);
    }
  }

  /** Whatever rows are drawn from the tables, their combination is there. */
  lemma {:induction false} InCombinations(db: Database, tables: seq<TableRef>, env: Env)
    requires EnvFor(env, tables) && forall i :: 0 <= i < |tables| ==> env[i].row in Fetch(db, tables[i])
    ensures env in AllCombinations(db, tables)
    decreases |tables|
  {
    if tables != [] {
      var n := |tables| - 1;
      var init := env[..n];
      assert EnvFor(init, tables[..n]);
      hide Fetch, Qualifier, Extend;
      InCombinations(db, tables[..n], init);
      InExtend(AllCombinations(db, tables[..n]), init, Qualifier(tables[n]), Fetch(db, tables[n]), env[n].row);
      assert init + [Binding(Qualifier(tables[n]), env[n].row)] == env;
      CombinationsStep(db, tables);
    } else {
      assert env == [];
    }
  }

  // ----- Choosing among them -----

  function Pick(envs: seq<Env>, keep: Env -> bool): seq<Env> {
    if envs == [] then [] else (if keep(envs[0]) then [envs[0]] else []) + Pick(envs[1..], keep)
  }

  lemma {:induction false} PickConcat(a: seq<Env>, b: seq<Env>, keep: Env -> bool)
    ensures Pick(a + b, keep) == Pick(a, keep) + Pick(b, keep)
  {
    if a == [] {
      assert a + b == b;
    } else {
      assert (a + b)[1..] == a[1..] + b;
      PickConcat(a[1..], b, keep);
    }
  }

  lemma {:induction false} PickMembers(envs: seq<Env>, keep: Env -> bool)
    ensures forall e :: e in Pick(envs, keep) <==> e in envs && keep(e)
  {
    if envs != [] {
      PickMembers(envs[1..], keep);
    }
  }

  lemma {:induction false} PickSame(envs: seq<Env>, a: Env -> bool, b: Env -> bool)
    requires forall e :: e in envs ==> a(e) == b(e)
    ensures Pick(envs, a) == Pick(envs, b)
  {
    if envs != [] {
      PickSame(envs[1..], a, b);
    }
  }

  lemma {:induction false} WherePicked(envs: seq<Env>, a: Env -> bool, b: Env -> bool, cond: Option<seq<Piece>>,
                                       sense: AtomSense)
    requires forall e :: e in envs ==> (b(e) <==> a(e) && Holds(cond, e, sense))
    ensures Where(Pick(envs, a), cond, sense) == Pick(envs, b)
  {
    if envs != [] {
      hide Holds;
      WherePicked(envs[1..], a, b, cond, sense);
      var rest := Pick(envs[1..], a);
      assert ([envs[0]] + rest)[1..] == rest && [] + rest == rest;
    }
  }

  lemma {:induction false} TenantPicked(envs: seq<Env>, a: Env -> bool, b: Env -> bool, config: Config,
                                        tables: seq<TableRef>, v: Value)
    requires forall e :: e in envs ==> (b(e) <==> TenantEnv(e, config, tables, v) && a(e))
    ensures Pick(TenantEnvs(envs, config, tables, v), a) == Pick(envs, b)
  {
    if envs != [] {
      hide TenantEnv;
      TenantPicked(envs[1..], a, b, config, tables, v);
      var rest := TenantEnvs(envs[1..], config, tables, v);
      assert ([envs[0]] + rest)[1..] == rest && [] + rest == rest;
    }
  }

  /** Every ON condition holds for the rows joined up to it. */
  predicate Joined(env: Env, ons: seq<Option<seq<Piece>>>, sense: AtomSense) {
    |env| == |ons| && forall i :: 0 <= i < |env| ==> Holds(ons[i], env[..i + 1], sense)
  }

  /** The query selects the combination. */
  predicate Selected(env: Env, ons: seq<Option<seq<Piece>>>, cond: Option<seq<Piece>>, sense: AtomSense) {
    Joined(env, ons, sense) && Holds(cond, env, sense)
  }

  function JoinedBy(ons: seq<Option<seq<Piece>>>, sense: AtomSense): Env -> bool {
    env => Joined(env, ons, sense)
  }

  function SelectedBy(ons: seq<Option<seq<Piece>>>, cond: Option<seq<Piece>>, sense: AtomSense): Env -> bool {
    env => Selected(env, ons, cond, sense)
  }

  lemma JoinedLast(env: Env, b: Binding, ons: seq<Option<seq<Piece>>>, sense: AtomSense)
    requires |ons| == |env| + 1
    ensures var n := |env|;
            Joined(env + [b], ons, sense) <==> Joined(env, ons[..n], sense) && Holds(ons[n], env + [b], sense)
  {
    hide Holds;
    var n, e := |env|, env + [b];
    assert e[..n + 1] == e;
    forall i | 0 <= i < n ensures ons[..n][i] == ons[i] && e[..i + 1] == env[..i + 1] {
    }
  }

  lemma {:induction false} ExtendOnePicked(env: Env, qual: string, rows: seq<Row>, on: Option<seq<Piece>>,
                                           sense: AtomSense, keep: Env -> bool, joined: bool)
    requires forall row :: keep(env + [Binding(qual, row)]) <==> joined && Holds(on, env + [Binding(qual, row)], sense)
    ensures Pick(ExtendOne(env, qual, rows, None, Always()), keep) ==
            if joined then ExtendOne(env, qual, rows, on, sense) else []
  {
    if rows != [] {
      hide Holds;
      var e := env + [Binding(qual, rows[0])];
      ExtendOnePicked(env, qual, rows[1..], on, sense, keep, joined);
      ExtendOneBare(env, qual, rows);
      PickConcat([e], ExtendOne(env, qual, rows[1..], None, Always()), keep);
      PickOne(e, keep);
    }
  }

  lemma ExtendOneBare(env: Env, qual: string, rows: seq<Row>)
    requires rows != []
    ensures ExtendOne(env, qual, rows, None, Always()) ==
            [env + [Binding(qual, rows[0])]] + ExtendOne(env, qual, rows[1..], None, Always())
  {
  }

  lemma PickOne(e: Env, keep: Env -> bool)
    ensures Pick([e], keep) == if keep(e) then [e] else []
  {
    assert [e][1..] == [];
  }

  lemma {:induction false} ExtendPicked(envs: seq<Env>, qual: string, rows: seq<Row>, on: Option<seq<Piece>>,
                                        sense: AtomSense, a: Env -> bool, b: Env -> bool)
    requires forall env, row {:trigger b(env + [Binding(qual, row)])} :: env in envs ==>
               (b(env + [Binding(qual, row)]) <==> a(env) && Holds(on, env + [Binding(qual, row)], sense))
    ensures Pick(Extend(envs, qual, rows, None, Always()), b) == Extend(Pick(envs, a), qual, rows, on, sense)
  {
    if envs != [] {
      hide Holds, ExtendOne;
      ExtendPicked(envs[1..], qual, rows, on, sense, a, b);
      ExtendOnePicked(envs[0], qual, rows, on, sense, b, a(envs[0]));
      PickConcat(ExtendOne(envs[0], qual, rows, None, Always()), Extend(envs[1..], qual, rows, None, Always()), b);
      var rest := Pick(envs[1..], a);
      assert ([envs[0]] + rest)[1..] == rest && [] + rest == rest;
    }
  }

  /** Joining picks the combinations for which every ON condition holds. */
  lemma {:induction false} EnvsArePicked(db: Database, tables: seq<TableRef>, ons: seq<Option<seq<Piece>>>,
                                         sense: AtomSense)
    requires |ons| == |tables|
    ensures Envs(db, tables, ons, sense) == Pick(AllCombinations(db, tables), JoinedBy(ons, sense))
    decreases |tables|
  {
    if tables == [] {
      PickOne([], JoinedBy(ons, sense));
    } else {
      var n := |tables| - 1;
      EnvsArePicked(db, tables[..n], ons[..n], sense);
      CombinationsStep(db, tables);
      CombinationsShape(db, tables[..n]);
      var qual, envs := Qualifier(tables[n]), AllCombinations(db, tables[..n]);
      hide Holds, Joined, AllCombinations, Extend, Fetch, Qualifier;
      forall env, row {:trigger JoinedBy(ons, sense)(env + [Binding(qual, row)])} | env in envs
        ensures JoinedBy(ons, sense)(env + [Binding(qual, row)]) <==>
                JoinedBy(ons[..n], sense)(env) && Holds(ons[n], env + [Binding(qual, row)], sense)
      {
        JoinedLast(env, Binding(qual, row), ons, sense);
      }
      ExtendPicked(envs, qual, Fetch(db, tables[n]), ons[n], sense, JoinedBy(ons[..n], sense), JoinedBy(ons, sense));
    }
  }

  /** Joining and filtering picks the combinations the query selects. */
  lemma RowsArePicked(db: Database, tables: seq<TableRef>, ons: seq<Option<seq<Piece>>>, cond: Option<seq<Piece>>,
                      sense: AtomSense)
    requires |ons| == |tables|
    ensures Where(Envs(db, tables, ons, sense), cond, sense) ==
            Pick(AllCombinations(db, tables), SelectedBy(ons, cond, sense))
  {
    hide Holds, Joined, AllCombinations, Envs;
    EnvsArePicked(db, tables, ons, sense);
    WherePicked(AllCombinations(db, tables), JoinedBy(ons, sense), SelectedBy(ons, cond, sense), cond, sense);
  }

  // ----- A database with the rows of one combination -----

  function RowsNamed(env: Env, tables: seq<TableRef>, base: string): seq<Row>
    requires |env| == |tables|
  {
    if env == [] then []
    else
      (if BaseName(tables[0].name) == base then [env[0].row] else []) + RowsNamed(env[1..], tables[1..], base)
  }

  /** Each table has the rows that the combination draws from it. */
  function DatabaseOf(env: Env, tables: seq<TableRef>): Database
    requires |env| == |tables|
  {
    map base | base in (set i | 0 <= i < |tables| :: BaseName(tables[i].name)) :: RowsNamed(env, tables, base)
  }

  lemma {:induction false} InRowsNamed(env: Env, tables: seq<TableRef>, i: nat)
    requires |env| == |tables| && i < |env|
    ensures env[i].row in RowsNamed(env, tables, BaseName(tables[i].name))
  {
    if i > 0 {
      hide BaseName;
      InRowsNamed(env[1..], tables[1..], i - 1);
    }
  }

  lemma InDatabaseOf(env: Env, tables: seq<TableRef>)
    requires EnvFor(env, tables)
    ensures forall i :: 0 <= i < |tables| ==> env[i].row in Fetch(DatabaseOf(env, tables), tables[i])
    ensures env in AllCombinations(DatabaseOf(env, tables), tables)
  {
    hide BaseName, RowsNamed, Qualifier, AllCombinations;
    forall i | 0 <= i < |tables| ensures env[i].row in Fetch(DatabaseOf(env, tables), tables[i]) {
      InRowsNamed(env, tables, i);
    }
    InCombinations(DatabaseOf(env, tables), tables, env);
  }
}
