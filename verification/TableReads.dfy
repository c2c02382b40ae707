/** Texts that name tables to read, and conditions whose truth depends on what is in those tables. */
module TableReads {
  import opened Text
  import opened Placeholders
  import opened FromClause
  import opened Rewriter
  import opened Conditions
  import opened Relations

  // ----- Which texts read tables -----

  /** The words after which a statement names tables. */
  function TableWords(): seq<string> {
    ["FROM", "JOIN", "USING", "TABLE"]
  }

  predicate IsNameChar(p: Piece) {
    p.Lit? && ('a' <= p.c <= 'z' || 'A' <= p.c <= 'Z' || '0' <= p.c <= '9' || p.c == '_')
  }

  /** The word stands at position `i`, in any letter case, with no character of a name on either side. */
  predicate MentionedAt(w: seq<Piece>, i: nat, word: string) {
    && i + |word| <= |w| && Spells(w[i..i + |word|], word)
    && (i == 0 || !IsNameChar(w[i - 1])) && (i + |word| == |w| || !IsNameChar(w[i + |word|]))
  }

  predicate MentionsTable(w: seq<Piece>) {
    exists word, i :: word in TableWords() && 0 <= i < |w| && MentionedAt(w, i, word)
  }

  predicate NamesTables(words: seq<Lexeme>) {
    exists l :: l in words && l.Word? && MentionsTable(l.w)
  }

  predicate ReadsTables(text: seq<Piece>) {
    NamesTables(Lex(text))
  }

  predicate Closed(cond: Option<seq<Piece>>) {
    cond.Some? ==> !ReadsTables(cond.value)
  }

  // ----- Atoms that may look at the database -----

  /** The truth of an atom on a combination of rows, in a database. */
  type Sense = (Database, Env, seq<Lexeme>) -> Truth

  /** An atom that names no table depends on the combination of rows only. */
  ghost predicate Local(sense: Sense) {
    forall db, other, env, words {:trigger sense(db, env, words), sense(other, env, words)} ::
      !NamesTables(words) ==> sense(db, env, words) == sense(other, env, words)
  }

  function On(sense: Sense, db: Database): AtomSense {
    (env, words) => sense(db, env, words)
  }

  /** Two senses that differ on atoms that name tables only. */
  ghost predicate Alike(f: AtomSense, g: AtomSense) {
    forall env, words {:trigger f(env, words)} {:trigger g(env, words)} ::
      !NamesTables(words) ==> f(env, words) == g(env, words)
  }

  lemma LocalAlike(sense: Sense, db: Database, other: Database)
    requires Local(sense)
    ensures Alike(On(sense, db), On(sense, other))
  {
    hide NamesTables;
  }

  // ----- The atoms of a condition are made of its words -----

  function AtomsIn(c: Cond): set<seq<Lexeme>> {
    match c
    case Atom(words) => {words}
    case And(l, r) => AtomsIn(l) + AtomsIn(r)
    case Or(l, r) => AtomsIn(l) + AtomsIn(r)
    case Not(d) => AtomsIn(d)
  }

  lemma {:induction false} EvalSame(c: Cond, f: seq<Lexeme> -> Truth, g: seq<Lexeme> -> Truth)
    requires forall a :: a in AtomsIn(c) ==> f(a) == g(a)
    ensures Eval(c, f) == Eval(c, g)
  {
    match c {
      case Atom(words) => assert words in AtomsIn(c);
      case And(l, r) => EvalSame(l, f, g); EvalSame(r, f, g);
      case Or(l, r) => EvalSame(l, f, g); EvalSame(r, f, g);
      case Not(d) => EvalSame(d, f, g);
    }
  }

  /** The atoms and the rest that a parser leaves are made of words of `ls`. */
  ghost predicate Within(r: Option<(Cond, seq<Lexeme>)>, ls: seq<Lexeme>) {
    r.Some? ==>
      && (forall a, l :: a in AtomsIn(r.value.0) && l in a ==> l in ls)
      && (forall l :: l in r.value.1 ==> l in ls)
  }

  lemma {:induction false} PrimaryWithin(ls: seq<Lexeme>)
    ensures Within(ParsePrimary(ls), ls)
    decreases |ls|, 0
  {
    if ls != [] {
      match ls[0] {
        case NotWord => PrimaryWithin(ls[1..]);
        case LParen =>
          OrWithin(ls[1..]);
          var r := ParseOr(ls[1..]);
          if r.Some? && r.value.1 != [] {
            SliceWithin(r.value.1, 1);
          }
        case Word(_) => SliceWithin(ls, AtomEnd(ls[1..], 0) + 1);
        case _ =>
      }
    }
  }

  lemma SliceWithin(ls: seq<Lexeme>, n: nat)
    requires n <= |ls|
    ensures (forall l :: l in ls[..n] ==> l in ls) && (forall l :: l in ls[n..] ==> l in ls)
  {
  }

  lemma {:induction false} AndWithin(ls: seq<Lexeme>)
    ensures Within(ParseAnd(ls), ls)
    decreases |ls|, 1
  {
    PrimaryWithin(ls);
    var r := ParsePrimary(ls);
    if r.Some? && r.value.1 != [] && r.value.1[0] == AndWord {
      AndWithin(r.value.1[1..]);
    }
  }

  lemma {:induction false} OrWithin(ls: seq<Lexeme>)
    ensures Within(ParseOr(ls), ls)
    decreases |ls|, 2
  {
    AndWithin(ls);
    var r := ParseAnd(ls);
    if r.Some? && r.value.1 != [] && r.value.1[0] == OrWord {
      OrWithin(r.value.1[1..]);
    }
  }

  lemma AtomsNameNoTables(t: seq<Piece>)
    requires !ReadsTables(t) && Parse(t).Some?
    ensures forall a :: a in AtomsIn(Parse(t).value) ==> !NamesTables(a)
  {
    OrWithin(Lex(t));
    hide Lex, MentionsTable;
  }

  /** A condition that names no table holds or not whatever the tables contain. */
  lemma HoldsSame(cond: Option<seq<Piece>>, env: Env, f: AtomSense, g: AtomSense)
    requires Closed(cond) && Alike(f, g)
    ensures Holds(cond, env, f) <==> Holds(cond, env, g)
  {
    hide NamesTables, Lex, ReadsTables;
    if cond.Some? && Parse(cond.value).Some? {
      AtomsNameNoTables(cond.value);
      EvalSame(Parse(cond.value).value, words => AtomTruth(env, words, f), words => AtomTruth(env, words, g));
    }
  }

  lemma HoldsPointwise(cond: Option<seq<Piece>>, env: Env, f: AtomSense, g: AtomSense)
    requires forall e, words {:trigger f(e, words)} {:trigger g(e, words)} :: f(e, words) == g(e, words)
    ensures Holds(cond, env, f) <==> Holds(cond, env, g)
  {
    if cond.Some? && Parse(cond.value).Some? {
      EvalSame(Parse(cond.value).value, words => AtomTruth(env, words, f), words => AtomTruth(env, words, g));
    }
  }

  // ----- When the tables matter -----

  /** Other answers of the atoms that name tables can change whether the condition keeps some row of the tenant. */
  ghost predicate TablesMatter(cond: Option<seq<Piece>>, qual: string, column: string, v: Value) {
    exists row, f: AtomSense, g: AtomSense ::
      && Owned(row, column, v) && Alike(f, g)
      && Holds(cond, [Binding(qual, row)], f) && !Holds(cond, [Binding(qual, row)], g)
  }

  lemma ClosedDoesNotMatter(cond: Option<seq<Piece>>, qual: string, column: string, v: Value)
    requires Closed(cond)
    ensures !TablesMatter(cond, qual, column, v)
  {
    if TablesMatter(cond, qual, column, v) {
      var row, f: AtomSense, g: AtomSense :|
        && Owned(row, column, v) && Alike(f, g)
        && Holds(cond, [Binding(qual, row)], f) && !Holds(cond, [Binding(qual, row)], g);
      HoldsSame(cond, [Binding(qual, row)], f, g);
    }
  }

  function TablesFalse(): AtomSense {
    (env, words) => if NamesTables(words) then False else True
  }

  /** A condition that is nothing but a comparison with a sub-select depends on the tables in it. */
  lemma SubSelectMatters(cond: seq<Piece>, words: seq<Lexeme>, qual: string, column: string, v: Value)
    requires Parse(cond) == Some(Atom(words)) && NamesTables(words) && !IsEquation(words)
    ensures TablesMatter(Some(cond), qual, column, v)
  {
    var row: Row := map[column := v];
    var f, g := Always(), TablesFalse();
    hide Lex, NamesTables;
    assert Owned(row, column, v) && Alike(f, g);
    assert Holds(Some(cond), [Binding(qual, row)], f) && !Holds(Some(cond), [Binding(qual, row)], g);
  }

  /** An atom sense that depends on whether the database is `db`. */
  function Telling(db: Database, f: AtomSense, g: AtomSense): Sense {
    (d, env, words) => if d == db then f(env, words) else g(env, words)
  }

  lemma TellingLocal(db: Database, other: Database, f: AtomSense, g: AtomSense, cond: Option<seq<Piece>>, env: Env)
    requires Alike(f, g) && other != db
    ensures Local(Telling(db, f, g))
    ensures Holds(cond, env, On(Telling(db, f, g), db)) <==> Holds(cond, env, f)
    ensures Holds(cond, env, On(Telling(db, f, g), other)) <==> Holds(cond, env, g)
  {
    hide Holds, NamesTables;
    HoldsPointwise(cond, env, On(Telling(db, f, g), db), f);
    HoldsPointwise(cond, env, On(Telling(db, f, g), other), g);
  }
}
