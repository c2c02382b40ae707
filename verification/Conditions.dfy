/** The meaning of a WHERE condition: words and parentheses, AND binding tighter than OR, three truth values. */
module Conditions {
  import opened Text
  import opened Placeholders

  datatype Truth = True | False | Unknown

  function And3(a: Truth, b: Truth): Truth {
    if a == False || b == False then False else if a == True && b == True then True else Unknown
  }

  function Or3(a: Truth, b: Truth): Truth {
    if a == True || b == True then True else if a == False && b == False then False else Unknown
  }

  function Not3(a: Truth): Truth {
    match a case True => False case False => True case Unknown => Unknown
  }

  // ----- Lexing resolved text -----

  datatype Lexeme = Word(w: seq<Piece>) | AndWord | OrWord | NotWord | LParen | RParen

  predicate IsBlank(p: Piece) {
    p.Lit? && IsSpace(p.c)
  }

  predicate IsDelimiter(p: Piece) {
    IsBlank(p) || p == Lit('(') || p == Lit(')')
  }

  /** The length of the run of non-delimiters at the start of `t`. */
  function RunLength(t: seq<Piece>): (n: nat)
    ensures n <= |t|
    ensures n == |t| || IsDelimiter(t[n])
  {
    if t == [] || IsDelimiter(t[0]) then 0 else 1 + RunLength(t[1..])
  }

  /** The word reads `text` in any letter case. */
  predicate Spells(w: seq<Piece>, text: string) {
    |w| == |text| && forall i :: 0 <= i < |w| ==> w[i].Lit? && UpChar(w[i].c) == text[i]
  }

  function Classify(w: seq<Piece>): Lexeme {
    if Spells(w, "AND") then AndWord else if Spells(w, "OR") then OrWord else if Spells(w, "NOT") then NotWord
      else Word(w)
  }

  function Lex(t: seq<Piece>): seq<Lexeme>
    decreases |t|
  {
    if t == [] then []
    else if t[0] == Lit('(') then [LParen] + Lex(t[1..])
    else if t[0] == Lit(')') then [RParen] + Lex(t[1..])
    else if IsBlank(t[0]) then Lex(t[1..])
    else [Classify(t[..RunLength(t)])] + Lex(t[RunLength(t)..])
  }

  /** No word runs across the cut between `a` and `b`. */
  ghost predicate WordCut(a: seq<Piece>, b: seq<Piece>) {
    a == [] || b == [] || IsDelimiter(a[|a| - 1]) || IsDelimiter(b[0])
  }

  lemma {:induction false} RunLengthConcat(a: seq<Piece>, b: seq<Piece>)
    requires WordCut(a, b)
    ensures a != [] && !IsDelimiter(a[0]) ==> RunLength(a + b) == RunLength(a)
    decreases |a|
  {
    if a != [] && !IsDelimiter(a[0]) {
      assert (a + b)[1..] == a[1..] + b;
      if |a| > 1 {
        RunLengthConcat(a[1..], b);
      }
    }
  }

  lemma CutConcat(a: seq<Piece>, b: seq<Piece>, n: nat)
    requires n <= |a|
    ensures (a + b)[n..] == a[n..] + b && (a + b)[..n] == a[..n]
  {
  }

  lemma {:induction false} LexConcat(a: seq<Piece>, b: seq<Piece>)
    requires WordCut(a, b)
    ensures Lex(a + b) == Lex(a) + Lex(b)
    decreases |a|
  {
    if a == [] {
      assert a + b == b;
    } else {
      var n := if IsDelimiter(a[0]) then 1 else RunLength(a);
      RunLengthConcat(a, b);
      CutConcat(a, b, n);
      LexConcat(a[n..], b);
    }
  }

  lemma {:induction false} LexBlanks(t: seq<Piece>)
    requires forall i :: 0 <= i < |t| ==> IsBlank(t[i])
    ensures Lex(t) == []
    decreases |t|
  {
    if t != [] {
      LexBlanks(t[1..]);
    }
  }

  /** Blanks at the ends do not matter. */
  lemma LexPadded(l: seq<Piece>, t: seq<Piece>, r: seq<Piece>)
    requires forall i :: 0 <= i < |l| ==> IsBlank(l[i])
    requires forall i :: 0 <= i < |r| ==> IsBlank(r[i])
    ensures Lex(l + t + r) == Lex(t)
  {
    LexBlanks(l);
    LexBlanks(r);
    LexConcat(l, t);
    LexConcat(l + t, r);
  }

  lemma LexWord(w: seq<Piece>)
    requires w != [] && forall i :: 0 <= i < |w| ==> !IsDelimiter(w[i])
    ensures Lex(w) == [Classify(w)]
  {
    RunLengthAll(w);
    assert w[..|w|] == w && w[|w|..] == [];
  }

  lemma {:induction false} RunLengthAll(w: seq<Piece>)
    requires forall i :: 0 <= i < |w| ==> !IsDelimiter(w[i])
    ensures RunLength(w) == |w|
  {
    if w != [] {
      RunLengthAll(w[1..]);
    }
  }

  // ----- Parsing -----

  datatype Cond = Atom(words: seq<Lexeme>) | And(l: Cond, r: Cond) | Or(l: Cond, r: Cond) | Not(c: Cond)

  /** The end of an atom: words and the parenthesised groups that follow a word; -1 when a group is not closed. */
  function AtomEnd(ls: seq<Lexeme>, depth: nat): (n: int)
    ensures -1 <= n <= |ls|
    ensures 0 <= n < |ls| ==> ls[n] == AndWord || ls[n] == OrWord || ls[n] == RParen
  {
    if ls == [] then (if depth == 0 then 0 else -1)
    else
      match ls[0]
      case LParen => Bump(AtomEnd(ls[1..], depth + 1))
      case RParen => if depth == 0 then 0 else Bump(AtomEnd(ls[1..], depth - 1))
      case AndWord => if depth == 0 then 0 else Bump(AtomEnd(ls[1..], depth))
      case OrWord => if depth == 0 then 0 else Bump(AtomEnd(ls[1..], depth))
      case _ => Bump(AtomEnd(ls[1..], depth))
  }

  function Bump(n: int): int {
    if n == -1 then -1 else n + 1
  }

  function ParsePrimary(ls: seq<Lexeme>): (r: Option<(Cond, seq<Lexeme>)>)
    ensures r.Some? ==> |r.value.1| < |ls|
    decreases |ls|, 0
  {
    if ls == [] then None
    else
      match ls[0]
      case NotWord =>
        (match ParsePrimary(ls[1..]) case None => None case Some((c, rest)) => Some((Not(c), rest)))
      case LParen =>
        (match ParseOr(ls[1..])
         case None => None
         case Some((c, rest)) => if rest != [] && rest[0] == RParen then Some((c, rest[1..])) else None)
      case Word(_) =>
        var n := AtomEnd(ls[1..], 0);
        if n == -1 then None else Some((Atom(ls[..n + 1]), ls[n + 1..]))
      case _ => None
  }

  function ParseAnd(ls: seq<Lexeme>): (r: Option<(Cond, seq<Lexeme>)>)
    ensures r.Some? ==> |r.value.1| < |ls|
    decreases |ls|, 1
  {
    match ParsePrimary(ls)
    case None => None
    case Some((c, rest)) =>
      if rest != [] && rest[0] == AndWord then
        match ParseAnd(rest[1..]) case None => None case Some((d, more)) => Some((And(c, d), more))
      else Some((c, rest))
  }

  function ParseOr(ls: seq<Lexeme>): (r: Option<(Cond, seq<Lexeme>)>)
    ensures r.Some? ==> |r.value.1| < |ls|
    decreases |ls|, 2
  {
    match ParseAnd(ls)
    case None => None
    case Some((c, rest)) =>
      if rest != [] && rest[0] == OrWord then
        match ParseOr(rest[1..]) case None => None case Some((d, more)) => Some((Or(c, d), more))
      else Some((c, rest))
  }

  /** The condition a text stands for, if it is one. */
  function Parse(t: seq<Piece>): Option<Cond> {
    match ParseOr(Lex(t))
    case Some((c, rest)) => if rest == [] then Some(c) else None
    case None => None
  }

  function Eval(c: Cond, atom: seq<Lexeme> -> Truth): Truth {
    match c
    case Atom(words) => atom(words)
    case And(l, r) => And3(Eval(l, atom), Eval(r, atom))
    case Or(l, r) => Or3(Eval(l, atom), Eval(r, atom))
    case Not(d) => Not3(Eval(d, atom))
  }

  // ----- A closing parenthesis stops every parser -----

  lemma {:induction false} AtomEndExtend(ls: seq<Lexeme>, depth: nat, ext: seq<Lexeme>)
    requires AtomEnd(ls, depth) != -1 && ext != [] && ext[0] == RParen
    ensures AtomEnd(ls + ext, depth) == AtomEnd(ls, depth)
    decreases |ls|
  {
    if ls == [] {
      assert ls + ext == ext;
    } else {
      assert (ls + ext)[1..] == ls[1..] + ext;
      match ls[0] {
        case LParen => AtomEndExtend(ls[1..], depth + 1, ext);
        case RParen => if depth > 0 { AtomEndExtend(ls[1..], depth - 1, ext); }
        case AndWord => if depth > 0 { AtomEndExtend(ls[1..], depth, ext); }
        case OrWord => if depth > 0 { AtomEndExtend(ls[1..], depth, ext); }
        case _ => AtomEndExtend(ls[1..], depth, ext);
      }
    }
  }

  lemma {:induction false} ParsePrimaryExtend(ls: seq<Lexeme>, ext: seq<Lexeme>)
    requires ParsePrimary(ls).Some? && ext != [] && ext[0] == RParen
    ensures ParsePrimary(ls + ext) == Some((ParsePrimary(ls).value.0, ParsePrimary(ls).value.1 + ext))
    decreases |ls|, 0
  {
    var all := ls + ext;
    assert all[0] == ls[0] && all[1..] == ls[1..] + ext;
    match ls[0] {
      case NotWord =>
        ParsePrimaryExtend(ls[1..], ext);
      case LParen =>
        ParseOrExtend(ls[1..], ext);
        var rest := ParseOr(ls[1..]).value.1;
        assert (rest + ext)[1..] == rest[1..] + ext;
      case Word(_) =>
        AtomEndExtend(ls[1..], 0, ext);
        var n := AtomEnd(ls[1..], 0);
        assert all[..n + 1] == ls[..n + 1] && all[n + 1..] == ls[n + 1..] + ext;
      case _ =>
    }
  }

  lemma {:induction false} ParseAndExtend(ls: seq<Lexeme>, ext: seq<Lexeme>)
    requires ParseAnd(ls).Some? && ext != [] && ext[0] == RParen
    ensures ParseAnd(ls + ext) == Some((ParseAnd(ls).value.0, ParseAnd(ls).value.1 + ext))
    decreases |ls|, 1
  {
    ParsePrimaryExtend(ls, ext);
    var rest := ParsePrimary(ls).value.1;
    assert rest != [] ==> (rest + ext)[0] == rest[0];
    if rest != [] && rest[0] == AndWord {
      assert (rest + ext)[1..] == rest[1..] + ext;
      ParseAndExtend(rest[1..], ext);
    } else if rest == [] {
      assert rest + ext == ext;
    }
  }

  lemma {:induction false} ParseOrExtend(ls: seq<Lexeme>, ext: seq<Lexeme>)
    requires ParseOr(ls).Some? && ext != [] && ext[0] == RParen
    ensures ParseOr(ls + ext) == Some((ParseOr(ls).value.0, ParseOr(ls).value.1 + ext))
    decreases |ls|, 2
  {
    ParseAndExtend(ls, ext);
    var rest := ParseAnd(ls).value.1;
    assert rest != [] ==> (rest + ext)[0] == rest[0];
    if rest != [] && rest[0] == OrWord {
      assert (rest + ext)[1..] == rest[1..] + ext;
      ParseOrExtend(rest[1..], ext);
    } else if rest == [] {
      assert rest + ext == ext;
    }
  }

  // ----- Conjunctions of equations with a parenthesised condition -----

  /** Atoms that are three plain words. */
  ghost predicate Equation(a: seq<Lexeme>) {
    |a| == 3 && a[0].Word? && a[1].Word? && a[2].Word?
  }

  /** The atoms with AND between them. */
  function AndedLexemes(atoms: seq<seq<Lexeme>>): seq<Lexeme> {
    if atoms == [] then []
    else atoms[0] + (if |atoms| > 1 then [AndWord] + AndedLexemes(atoms[1..]) else [])
  }

  function AndedWith(atoms: seq<seq<Lexeme>>, c: Cond): Cond {
    if atoms == [] then c else And(Atom(atoms[0]), AndedWith(atoms[1..], c))
  }

  function Anded(atoms: seq<seq<Lexeme>>): Cond
    requires atoms != []
  {
    if |atoms| == 1 then Atom(atoms[0]) else And(Atom(atoms[0]), Anded(atoms[1..]))
  }

  lemma ParseEquation(a: seq<Lexeme>, rest: seq<Lexeme>)
    requires Equation(a) && (rest == [] || rest[0] == AndWord)
    ensures ParsePrimary(a + rest) == Some((Atom(a), rest))
  {
    var ls := a + rest;
    assert ls[0] == a[0] && ls[1] == a[1] && ls[2] == a[2];
    assert ls[1..][0] == a[1] && ls[1..][1..] == ls[2..] && ls[2..][0] == a[2] && ls[2..][1..] == rest;
    assert AtomEnd(rest, 0) == 0;
    assert AtomEnd(ls[2..], 0) == 1;
    assert AtomEnd(ls[1..], 0) == 2;
    assert ls[..3] == a && ls[3..] == rest;
  }

  /** `e1 AND ... AND en AND ( c )` is the conjunction of the equations with `c`, whatever operators `c` has. */
  lemma {:induction false} ParseConjunction(atoms: seq<seq<Lexeme>>, ls: seq<Lexeme>)
    requires atoms != [] && (forall a :: a in atoms ==> Equation(a))
    requires ParseOr(ls).Some? && ParseOr(ls).value.1 == []
    ensures ParseAnd(AndedLexemes(atoms) + [AndWord, LParen] + ls + [RParen]) ==
            Some((AndedWith(atoms, ParseOr(ls).value.0), []))
    decreases |atoms|
  {
    var group := [LParen] + ls + [RParen];
    var all := AndedLexemes(atoms) + [AndWord, LParen] + ls + [RParen];
    if |atoms| == 1 {
      assert atoms[1..] == [];
      assert all == atoms[0] + ([AndWord] + group);
      ParseEquation(atoms[0], [AndWord] + group);
      assert ([AndWord] + group)[1..] == group;
      ParseGroup(ls);
    } else {
      var more := AndedLexemes(atoms[1..]) + [AndWord, LParen] + ls + [RParen];
      assert all == atoms[0] + ([AndWord] + more);
      ParseEquation(atoms[0], [AndWord] + more);
      assert ([AndWord] + more)[1..] == more;
      ParseConjunction(atoms[1..], ls);
    }
  }

  lemma ParseGroup(ls: seq<Lexeme>)
    requires ParseOr(ls).Some? && ParseOr(ls).value.1 == []
    ensures ParseAnd([LParen] + ls + [RParen]) == Some((ParseOr(ls).value.0, []))
  {
    var group := [LParen] + ls + [RParen];
    assert group[1..] == ls + [RParen];
    ParseOrExtend(ls, [RParen]);
    assert [] + [RParen] == [RParen];
    assert ParsePrimary(group) == Some((ParseOr(ls).value.0, []));
  }

  lemma {:induction false} ParseEquations(atoms: seq<seq<Lexeme>>)
    requires atoms != [] && (forall a :: a in atoms ==> Equation(a))
    ensures ParseAnd(AndedLexemes(atoms)) == Some((Anded(atoms), []))
    decreases |atoms|
  {
    if |atoms| == 1 {
      assert AndedLexemes(atoms) == atoms[0] + [];
      ParseEquation(atoms[0], []);
    } else {
      var more := AndedLexemes(atoms[1..]);
      ParseEquation(atoms[0], [AndWord] + more);
      assert ([AndWord] + more)[1..] == more;
      ParseEquations(atoms[1..]);
    }
  }

  lemma {:induction false} EvalAndedWith(atoms: seq<seq<Lexeme>>, c: Cond, atom: seq<Lexeme> -> Truth)
    ensures Eval(AndedWith(atoms, c), atom) == True <==>
            (forall a :: a in atoms ==> atom(a) == True) && Eval(c, atom) == True
  {
    if atoms != [] {
      EvalAndedWith(atoms[1..], c, atom);
      assert atoms == [atoms[0]] + atoms[1..];
    }
  }

  lemma {:induction false} EvalAnded(atoms: seq<seq<Lexeme>>, atom: seq<Lexeme> -> Truth)
    requires atoms != []
    ensures Eval(Anded(atoms), atom) == True <==> forall a :: a in atoms ==> atom(a) == True
  {
    if |atoms| > 1 {
      EvalAnded(atoms[1..], atom);
      assert atoms == [atoms[0]] + atoms[1..];
    }
  }

  // ----- Without parentheses -----

  /** What stands after the first OR at the top level of a condition, if there is one. */
  function AfterOr(ls: seq<Lexeme>): Option<Cond> {
    match ParseAnd(ls)
    case None => None
    case Some((_, rest)) =>
      if rest != [] && rest[0] == OrWord then
        match ParseOr(rest[1..]) case None => None case Some((r, _)) => Some(r)
      else None
  }

  lemma AfterOrHolds(ls: seq<Lexeme>, atom: seq<Lexeme> -> Truth)
    requires ParseOr(ls).Some? && AfterOr(ls).Some? && Eval(AfterOr(ls).value, atom) == True
    ensures Eval(ParseOr(ls).value.0, atom) == True
  {
    var (l, rest) := ParseAnd(ls).value;
    var r := ParseOr(rest[1..]).value.0;
    assert ParseOr(ls).value.0 == Or(l, r);
    assert Eval(Or(l, r), atom) == Or3(Eval(l, atom), Eval(r, atom));
  }

  /** `e AND c` without parentheses is the conjunction of the equation with `c`, except for what stands after a
      top-level OR of `c`: that alone makes it true, whatever the equation says. */
  lemma BareConjunction(e: seq<Lexeme>, ls: seq<Lexeme>, atom: seq<Lexeme> -> Truth)
    requires Equation(e) && ParseOr(ls).Some? && ParseOr(ls).value.1 == []
    ensures var bare, c := ParseOr(e + [AndWord] + ls), ParseOr(ls).value.0;
            && bare.Some? && bare.value.1 == []
            && (atom(e) == True && Eval(c, atom) == True ==> Eval(bare.value.0, atom) == True)
            && (Eval(bare.value.0, atom) == True && !(atom(e) == True && Eval(c, atom) == True) <==>
                  AfterOr(ls).Some? && Eval(AfterOr(ls).value, atom) == True && atom(e) != True)
  {
    assert e + [AndWord] + ls == e + ([AndWord] + ls);
    ParseEquation(e, [AndWord] + ls);
    assert ([AndWord] + ls)[1..] == ls;
    var (l, rest) := ParseAnd(ls).value;
    var both := And(Atom(e), l);
    assert ParseAnd(e + [AndWord] + ls) == Some((both, rest));
    assert Eval(both, atom) == And3(atom(e), Eval(l, atom));
    if rest != [] {
      assert rest[0] == OrWord;
      var r := ParseOr(rest[1..]).value.0;
      assert ParseOr(ls).value.0 == Or(l, r) && ParseOr(e + [AndWord] + ls).value.0 == Or(both, r);
      assert Eval(Or(l, r), atom) == Or3(Eval(l, atom), Eval(r, atom));
      assert Eval(Or(both, r), atom) == Or3(Eval(both, atom), Eval(r, atom));
    }
  }
}
