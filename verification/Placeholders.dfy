/** Query placeholders: scanning `$N` and `?`, the renumbering loop, and what each placeholder is bound to. */
module Placeholders {
  import opened Text
  import opened Decimal

  datatype Style = Question | Dollar | Colon

  /** An argument value handed to the database driver. */
  datatype Value = Str(s: string) | Number(n: int) | Null

  // ----- Scanning `$N` -----

  /** A query under the regular expression `\$(\d+)`: plain characters and numbered slots. */
  datatype Token = Char(c: char) | Slot(n: int)

  predicate SlotAt(s: string, i: int) {
    0 <= i && i + 1 < |s| && s[i] == '$' && IsDigit(s[i + 1])
  }

  /** The end of the run of digits that starts at `i`. */
  function DigitRun(s: string, i: nat): (e: nat)
    requires i <= |s|
    ensures i <= e <= |s| && AllDigits(s[i..e])
    ensures e == |s| || !IsDigit(s[e])
    decreases |s| - i
  {
    if i == |s| || !IsDigit(s[i]) then i
    else
      var e := DigitRun(s, i + 1);
      assert s[i..e] == [s[i]] + s[i + 1..e];
      e
  }

  function Tokenize(s: string): (ts: seq<Token>)
    decreases |s|
  {
    if s == "" then []
    else if SlotAt(s, 0) then
      var e := DigitRun(s, 1);
      [Slot(Atoi(s[1..e]))] + Tokenize(s[e..])
    else [Char(s[0])] + Tokenize(s[1..])
  }

  function Render(ts: seq<Token>): string {
    if ts == [] then "" else RenderToken(ts[0]) + Render(ts[1..])
  }

  function RenderToken(t: Token): string {
    match t
    case Char(c) => [c]
    case Slot(n) => "$" + Itoa(n)
  }

  function Shift(ts: seq<Token>, offset: int): (r: seq<Token>)
    ensures |r| == |ts|
  {
    if ts == [] then []
    else [if ts[0].Slot? then Slot(Wrap(ts[0].n + offset)) else ts[0]] + Shift(ts[1..], offset)
  }

  /** The query with every slot number shifted. */
  function Shifted(s: string, offset: int): string {
    Render(Shift(Tokenize(s), offset))
  }

  function MaxSlot(ts: seq<Token>): (m: nat)
    ensures forall t :: t in ts && t.Slot? ==> t.n <= m
    ensures m == 0 || Slot(m) in ts
  {
    if ts == [] then 0
    else
      var m := MaxSlot(ts[..|ts| - 1]);
      var t := ts[|ts| - 1];
      assert ts == ts[..|ts| - 1] + [t];
      if t.Slot? && t.n > m then t.n else m
  }

  /** Cutting between `a` and `b` splits no slot. */
  predicate SafeCut(a: string, b: string) {
    a == "" || b == "" || !IsDigit(b[0]) || !(IsDigit(a[|a| - 1]) || a[|a| - 1] == '$' || a[|a| - 1] == ':')
  }

  lemma {:induction false} TokenizeConcat(a: string, b: string)
    requires SafeCut(a, b)
    ensures Tokenize(a + b) == Tokenize(a) + Tokenize(b)
    decreases |a|
  {
    var s := a + b;
    if a == "" {
      assert s == b;
    } else if b == "" {
      assert s == a;
    } else if SlotAt(s, 0) {
      assert SlotAt(a, 0);
      var e := DigitRun(a, 1);
      DigitRunConcat(a, b, 1);
      assert s[1..e] == a[1..e];
      assert s[e..] == a[e..] + b;
      TokenizeConcat(a[e..], b);
      assert Tokenize(s) == [Slot(Atoi(s[1..e]))] + Tokenize(s[e..]);
    } else {
      assert !SlotAt(a, 0);
      assert s[1..] == a[1..] + b;
      TokenizeConcat(a[1..], b);
    }
  }

  lemma DigitRunConcat(a: string, b: string, i: nat)
    requires i <= |a|
    requires b == "" || !IsDigit(b[0]) || DigitRun(a, i) < |a|
    ensures DigitRun(a + b, i) == DigitRun(a, i)
    decreases |a| - i
  {
    if i < |a| && IsDigit(a[i]) {
      DigitRunConcat(a, b, i + 1);
    }
  }

  /** Token sequences that the scanner can produce, and that print without two tokens running together. */
  ghost predicate Scannable(ts: seq<Token>) {
    && (forall t :: t in ts && t.Slot? ==> 0 <= t.n <= MAX_INT)
    && (forall i :: 0 <= i < |ts| - 1 && (ts[i].Slot? || ts[i] == Char('$')) ==>
          !(ts[i + 1].Char? && IsDigit(ts[i + 1].c)))
  }

  lemma ScannableTail(ts: seq<Token>)
    requires Scannable(ts) && ts != []
    ensures Scannable(ts[1..])
  {
  }

  lemma {:induction false} TokenizeScannable(s: string)
    ensures Scannable(Tokenize(s))
    ensures s != "" ==> Tokenize(s) != []
    ensures s != "" && !SlotAt(s, 0) ==> Tokenize(s)[0] == Char(s[0])
    ensures SlotAt(s, 0) ==> Tokenize(s)[0].Slot?
    decreases |s|
  {
    if s != "" {
      var e := if SlotAt(s, 0) then DigitRun(s, 1) else 1;
      TokenizeScannable(s[e..]);
      var ts := Tokenize(s);
      assert ts[1..] == Tokenize(s[e..]);
      forall i | 0 <= i < |ts| - 1 && (ts[i].Slot? || ts[i] == Char('$'))
        ensures !(ts[i + 1].Char? && IsDigit(ts[i + 1].c))
      {
        if i > 0 {
          assert ts[i] == ts[1..][i - 1] && ts[i + 1] == ts[1..][i];
        } else {
          assert ts[1] == Tokenize(s[e..])[0];
        }
      }
    }
  }

  /** Printing and scanning again gives the tokens back. */
  lemma {:induction false} TokenizeRender(ts: seq<Token>)
    requires Scannable(ts)
    ensures Tokenize(Render(ts)) == ts
  {
    if ts != [] {
      ScannableTail(ts);
      TokenizeRender(ts[1..]);
      RenderHead(ts[1..]);
      TokenizeToken(ts[0], Render(ts[1..]));
      assert ts == [ts[0]] + ts[1..];
    }
  }

  lemma RenderHead(ts: seq<Token>)
    ensures Render(ts) != "" && IsDigit(Render(ts)[0]) ==> ts != [] && ts[0].Char? && IsDigit(ts[0].c)
    ensures ts != [] ==> Render(ts) != "" && RenderToken(ts[0])[0] == Render(ts)[0]
  {
  }

  lemma TokenizeToken(t: Token, rest: string)
    requires t.Slot? ==> 0 <= t.n <= MAX_INT
    requires (t.Slot? || t == Char('$')) && rest != "" ==> !IsDigit(rest[0])
    ensures Tokenize(RenderToken(t) + rest) == [t] + Tokenize(rest)
  {
    match t {
      case Char(c) =>
        assert ([c] + rest)[1..] == rest;
      case Slot(n) =>
        TokenizeSlot(n);
        TokenizeConcat("$" + Itoa(n), rest);
    }
  }

  lemma TokenizeSlot(n: nat)
    requires n <= MAX_INT
    ensures Tokenize("$" + Itoa(n)) == [Slot(n)]
  {
    AtoiItoa(n);
    var s := "$" + Itoa(n);
    assert s[1..] == Itoa(n);
    var e := DigitRun(s, 1);
    assert forall i :: 1 <= i < |s| ==> s[i] == Itoa(n)[i - 1];
    assert s[1..e] == Itoa(n) && s[e..] == "";
    assert SlotAt(s, 0);
  }

  lemma {:induction false} ShiftScannable(ts: seq<Token>, offset: nat)
    requires Scannable(ts)
    requires MaxSlot(ts) + offset <= MAX_INT
    ensures Scannable(Shift(ts, offset))
    ensures forall i :: 0 <= i < |ts| ==>
              Shift(ts, offset)[i] == if ts[i].Slot? then Slot(ts[i].n + offset) else ts[i]
  {
    ShiftAt(ts, offset);
    hide Shift, MaxSlot;
    var r := Shift(ts, offset);
    forall i | 0 <= i < |ts| ensures r[i] == if ts[i].Slot? then Slot(ts[i].n + offset) else ts[i] {
      assert ts[i] in ts;
    }
    forall t | t in r && t.Slot? ensures 0 <= t.n <= MAX_INT {
      var i :| 0 <= i < |r| && r[i] == t;
      assert ts[i] in ts;
    }
  }

  lemma {:induction false} ShiftAt(ts: seq<Token>, offset: int)
    ensures forall i :: 0 <= i < |ts| ==>
              Shift(ts, offset)[i] == if ts[i].Slot? then Slot(Wrap(ts[i].n + offset)) else ts[i]
  {
    if ts != [] {
      ShiftAt(ts[1..], offset);
    }
  }

  /** Renumbering commutes with scanning: the scan of the renumbered query is the scan of the
      original with every number shifted and all other text untouched. */
  lemma RenumberCommutesWithScan(s: string, offset: nat)
    requires MaxSlot(Tokenize(s)) + offset <= MAX_INT
    ensures Tokenize(Shifted(s, offset)) == Shift(Tokenize(s), offset)
    ensures forall i :: 0 <= i < |Tokenize(s)| ==>
              Tokenize(Shifted(s, offset))[i] ==
              match Tokenize(s)[i] case Char(c) => Char(c) case Slot(n) => Slot(n + offset)
  {
    hide Tokenize, Render, Shift, Scannable, MaxSlot;
    TokenizeScannable(s);
    ShiftScannable(Tokenize(s), offset);
    TokenizeRender(Shift(Tokenize(s), offset));
  }

  lemma {:induction false} ShiftShift(ts: seq<Token>, j: int, k: int)
    ensures Shift(Shift(ts, j), k) == Shift(ts, j + k)
  {
    if ts != [] {
      ShiftShift(ts[1..], j, k);
      assert Shift(ts, j)[1..] == Shift(ts[1..], j);
    }
  }

  /** Shifts compose additively. */
  lemma RenumberComposes(s: string, j: nat, k: nat)
    requires MaxSlot(Tokenize(s)) + j <= MAX_INT
    ensures Shifted(Shifted(s, j), k) == Shifted(s, j + k)
  {
    RenumberCommutesWithScan(s, j);
    ShiftShift(Tokenize(s), j, k);
  }

  // ----- The renumbering and counting loops -----

  /** One match of the placeholder expression: the position of `$` and the end of the digits. */
  datatype Match = Match(start: nat, end: nat)

  predicate IsMatch(s: string, m: Match) {
    m.start + 1 < m.end <= |s| && SlotAt(s, m.start) && m.end == DigitRun(s, m.start + 1)
  }

  /** `FindAllStringSubmatchIndex`: the leftmost, longest, non-overlapping matches from `i` on. */
  function FindMatches(s: string, i: nat): (ms: seq<Match>)
    requires i <= |s|
    ensures forall m :: m in ms ==> i <= m.start && IsMatch(s, m)
    decreases |s| - i
  {
    if i == |s| then []
    else if SlotAt(s, i) then
      var e := DigitRun(s, i + 1);
      [Match(i, e)] + FindMatches(s, e)
    else FindMatches(s, i + 1)
  }

  function Chars(s: string): (ts: seq<Token>)
    ensures |ts| == |s|
  {
    seq(|s|, i requires 0 <= i < |s| => Char(s[i]))
  }

  /** Where the scan of `s[i..]` stands relative to its first match. */
  lemma {:induction false} FirstMatch(s: string, i: nat)
    requires i <= |s|
    ensures FindMatches(s, i) == [] ==> Tokenize(s[i..]) == Chars(s[i..])
    ensures FindMatches(s, i) != [] ==>
              var m := FindMatches(s, i)[0];
              && Tokenize(s[i..]) == Chars(s[i..m.start]) + Tokenize(s[m.start..])
              && FindMatches(s, i)[1..] == FindMatches(s, m.end)
    decreases |s| - i
  {
    if i < |s| {
      if SlotAt(s, i) {
        assert s[i..i] == "";
      } else {
        FirstMatch(s, i + 1);
        TokenizeStep(s, i);
        var ms := FindMatches(s, i);
        assert ms == FindMatches(s, i + 1);
        hide *;
        var j := if ms == [] then |s| else ms[0].start;
        CharsCons(s, i, j);
        assert s[i..] == s[i..|s|] && s[i + 1..] == s[i + 1..|s|];
      }
    }
  }

  lemma CharsCons(s: string, i: nat, j: nat)
    requires i < j <= |s|
    ensures Chars(s[i..j]) == [Char(s[i])] + Chars(s[i + 1..j])
  {
  }

  lemma TokenizeStep(s: string, i: nat)
    requires i < |s|
    ensures !SlotAt(s, i) ==> Tokenize(s[i..]) == [Char(s[i])] + Tokenize(s[i + 1..])
    ensures SlotAt(s, i) ==>
              Tokenize(s[i..]) == [Slot(Atoi(s[i + 1..DigitRun(s, i + 1)]))] + Tokenize(s[DigitRun(s, i + 1)..])
  {
    var u := s[i..];
    assert u[1..] == s[i + 1..];
    assert SlotAt(u, 0) == SlotAt(s, i);
    if SlotAt(s, i) {
      DigitRunDrop(s, i, 1);
      var e := DigitRun(s, i + 1);
      assert u[1..e - i] == s[i + 1..e] && u[e - i..] == s[e..];
    }
  }

  lemma DigitRunDrop(s: string, i: nat, k: nat)
    requires i + k <= |s|
    ensures DigitRun(s[i..], k) + i == DigitRun(s, i + k)
    decreases |s| - i - k
  {
    if i + k < |s| && IsDigit(s[i + k]) {
      DigitRunDrop(s, i, k + 1);
    }
  }

  lemma {:induction false} ShiftedChars(x: string, ts: seq<Token>, offset: int)
    ensures Render(Shift(Chars(x) + ts, offset)) == x + Render(Shift(ts, offset))
  {
    if x == "" {
      assert Chars(x) + ts == ts;
    } else {
      ShiftedChars(x[1..], ts, offset);
      ShiftedCons(Char(x[0]), Chars(x[1..]) + ts, offset);
      assert Chars(x) + ts == [Char(x[0])] + (Chars(x[1..]) + ts);
      assert x == [x[0]] + x[1..];
    }
  }

  lemma ShiftedCons(t: Token, ts: seq<Token>, offset: int)
    ensures Render(Shift([t] + ts, offset)) ==
            (match t case Char(c) => [c] case Slot(n) => "$" + Itoa(Wrap(n + offset))) + Render(Shift(ts, offset))
  {
    assert ([t] + ts)[1..] == ts;
    assert Shift([t] + ts, offset)[1..] == Shift(ts, offset);
  }

  lemma ShiftedNone(offset: int)
    ensures Render(Shift([], offset)) == ""
  {
  }

  function NewNumeral(s: string, m: Match, offset: int): string
    requires IsMatch(s, m)
  {
    "$" + Itoa(Wrap(Atoi(s[m.start + 1..m.end]) + offset))
  }

  /** The text up to the first match is copied. */
  lemma ShiftedFirstMatch(s: string, i: nat, offset: int)
    requires i <= |s|
    ensures FindMatches(s, i) == [] ==> Shifted(s[i..], offset) == s[i..]
    ensures FindMatches(s, i) != [] ==>
              var m := FindMatches(s, i)[0];
              Shifted(s[i..], offset) == s[i..m.start] + (NewNumeral(s, m, offset) + Shifted(s[m.end..], offset))
  {
    hide Tokenize, FindMatches, Render, Shift, DigitRun, DigitsValue, SlotAt;
    FirstMatch(s, i);
    var ms := FindMatches(s, i);
    if ms == [] {
      ShiftedChars(s[i..], [], offset);
      ShiftedNone(offset);
      assert Chars(s[i..]) + [] == Chars(s[i..]);
    } else {
      var m := ms[0];
      TokenizeStep(s, m.start);
      ShiftedChars(s[i..m.start], Tokenize(s[m.start..]), offset);
      ShiftedCons(Slot(Atoi(s[m.start + 1..m.end])), Tokenize(s[m.end..]), offset);
    }
  }

  /** The end of the match before number `k`, or the start of the query. */
  function CutBefore(ms: seq<Match>, k: nat): nat
    requires k <= |ms|
  {
    if k == 0 then 0 else ms[k - 1].end
  }

  lemma {:induction false} MatchesAfter(s: string, i: nat, k: nat)
    requires i <= |s| && k <= |FindMatches(s, i)|
    ensures var c := if k == 0 then i else FindMatches(s, i)[k - 1].end;
            c <= |s| && FindMatches(s, i)[k..] == FindMatches(s, c)
    decreases k
  {
    if k > 0 {
      FirstMatch(s, i);
      var ms := FindMatches(s, i);
      assert ms[1..] == FindMatches(s, ms[0].end);
      MatchesAfter(s, ms[0].end, k - 1);
      assert ms[k..] == ms[1..][k - 1..];
      if k > 1 {
        assert ms[k - 1] == ms[1..][k - 2];
      }
    }
  }

  lemma ReplaceStep(s: string, k: nat, offset: int)
    requires k < |FindMatches(s, 0)|
    ensures var ms := FindMatches(s, 0);
            var c := CutBefore(ms, k);
            && c <= ms[k].start
            && s[..c] + Shifted(s[c..], offset) ==
               s[..ms[k].start] + NewNumeral(s, ms[k], offset) + Shifted(s[ms[k].end..], offset)
  {
    hide Shifted, FindMatches, NewNumeral, DigitRun;
    var ms := FindMatches(s, 0);
    var c := CutBefore(ms, k);
    MatchesAfter(s, 0, k);
    ShiftedFirstMatch(s, c, offset);
    assert FindMatches(s, c)[0] == ms[k];
    assert s[..ms[k].start] == s[..c] + s[c..ms[k].start];
  }

  lemma Splice(s: string, i: nat, j: nat, t: string)
    requires i <= j <= |s|
    ensures (s[..j] + t)[..i] == s[..i] && (s[..j] + t)[j..] == t
  {
  }

  /** Replaces from the last match to the first, so that earlier positions stay right. */
  method RenumberPlaceholders(style: Style, query: string, offset: int) returns (result: string)
    ensures result == if style == Dollar then Shifted(query, offset) else query
  {
    hide *;
    if style != Dollar {
      return query;
    }
    var matches := FindMatches(query, 0);
    result := query;
    var i := |matches|;
    AllMatches(query, offset);
    while i > 0
      invariant 0 <= i <= |matches| && Renumbered(query, i, offset, result)
    {
      i := i - 1;
      var m := matches[i];
      assert m in matches;
      MatchFacts(query, m);
      var n := Atoi(query[m.start + 1..m.end]);
      var newPlaceholder := "$" + Itoa(Wrap(n + offset));
      NumeralIs(query, m, offset);
      RenumberStep(query, i, offset, result);
      result := result[..m.start] + newPlaceholder + result[m.end..];
    }
    NoMatchesLeft(query, offset, result);
  }

  /** The matches from the k-th on have their new numerals; the text before is still the old one. */
  ghost predicate Renumbered(query: string, k: nat, offset: int, result: string) {
    var ms := FindMatches(query, 0);
    && k <= |ms|
    && var c := CutBefore(ms, k);
       c <= |query| && result == query[..c] + Shifted(query[c..], offset)
  }

  lemma NumeralIs(s: string, m: Match, offset: int)
    requires IsMatch(s, m) && m.start + 1 < m.end <= |s| && AllDigits(s[m.start + 1..m.end])
    ensures NewNumeral(s, m, offset) == "$" + Itoa(Wrap(Atoi(s[m.start + 1..m.end]) + offset))
  {
    hide Itoa, Wrap, Atoi, SlotAt, DigitRun;
  }

  lemma AllMatches(query: string, offset: int)
    ensures Renumbered(query, |FindMatches(query, 0)|, offset, query)
  {
    hide Shifted, FindMatches;
    var k := |FindMatches(query, 0)|;
    MatchesAfter(query, 0, k);
    ShiftedFirstMatch(query, CutBefore(FindMatches(query, 0), k), offset);
  }

  lemma RenumberStep(query: string, k: nat, offset: int, result: string)
    requires k < |FindMatches(query, 0)| && Renumbered(query, k + 1, offset, result)
    ensures var m := FindMatches(query, 0)[k];
            && m in FindMatches(query, 0) && m.start <= m.end <= |result|
            && Renumbered(query, k, offset, result[..m.start] + NewNumeral(query, m, offset) + result[m.end..])
  {
    hide Shifted, FindMatches, NewNumeral, DigitRun, SlotAt;
    ReplaceStep(query, k, offset);
    var m := FindMatches(query, 0)[k];
    Splice(query, m.start, m.end, Shifted(query[m.end..], offset));
  }

  lemma NoMatchesLeft(query: string, offset: int, result: string)
    requires Renumbered(query, 0, offset, result)
    ensures result == Shifted(query, offset)
  {
    hide Shifted, FindMatches;
    assert query[0..] == query;
  }

  /** The number that tells where the injected placeholders start. */
  function ExistingPlaceholders(style: Style, query: string): nat {
    match style
    case Dollar => MaxSlot(Tokenize(query))
    case Question => Count(query, '?')
    case Colon => 0
  }

  lemma {:induction false} MaxSlotConcat(a: seq<Token>, b: seq<Token>)
    ensures MaxSlot(a + b) == if MaxSlot(a) >= MaxSlot(b) then MaxSlot(a) else MaxSlot(b)
  {
    forall t | t in a + b && t.Slot? ensures t.n <= MaxSlot(a) || t.n <= MaxSlot(b) {}
    forall t | t in a || t in b ensures t in a + b {}
  }

  lemma MaxSlotOne(t: Token, s: string)
    ensures MaxSlot(Chars(s)) == 0
    ensures t.Slot? && t.n >= 0 ==> MaxSlot([t]) == t.n
  {
    assert [t][..0] == [];
  }

  /** The largest number among some matches. */
  function MatchMax(s: string, ms: seq<Match>): nat
    requires forall m :: m in ms ==> IsMatch(s, m)
  {
    if ms == [] then 0
    else
      assert IsMatch(s, ms[0]);
      var n := Atoi(s[ms[0].start + 1..ms[0].end]);
      var rest := MatchMax(s, ms[1..]);
      if n > rest then n else rest
  }

  lemma {:induction false} MaxSlotIsMatchMax(s: string, i: nat)
    requires i <= |s|
    ensures MaxSlot(Tokenize(s[i..])) == MatchMax(s, FindMatches(s, i))
    decreases |s| - i
  {
    hide *;
    FirstMatch(s, i);
    var ms := FindMatches(s, i);
    if ms == [] {
      MaxSlotOne(Slot(0), s[i..]);
      MatchMaxStep(s, ms);
    } else {
      assert ms[0] in ms;
      MatchFacts(s, ms[0]);
      MatchMaxStep(s, ms);
      var m, n := ms[0], Atoi(s[ms[0].start + 1..ms[0].end]);
      MaxSlotParts(s[i..m.start], n, Tokenize(s[m.end..]));
      MaxSlotIsMatchMax(s, m.end);
    }
  }

  lemma MatchFacts(s: string, m: Match)
    requires IsMatch(s, m)
    ensures m.start + 1 < m.end <= |s| && AllDigits(s[m.start + 1..m.end])
    ensures Tokenize(s[m.start..]) == [Slot(Atoi(s[m.start + 1..m.end]))] + Tokenize(s[m.end..])
  {
    hide Tokenize, DigitsValue;
    TokenizeStep(s, m.start);
  }

  lemma MatchMaxStep(s: string, ms: seq<Match>)
    requires forall m :: m in ms ==> IsMatch(s, m)
    ensures ms == [] ==> MatchMax(s, ms) == 0
    ensures ms != [] ==>
              var m := ms[0];
              && m.start + 1 < m.end <= |s| && AllDigits(s[m.start + 1..m.end])
              && var n, rest := Atoi(s[m.start + 1..m.end]), MatchMax(s, ms[1..]);
                 MatchMax(s, ms) == if n > rest then n else rest
  {
    hide Atoi, SlotAt;
    if ms != [] {
      assert IsMatch(s, ms[0]);
    }
  }

  lemma MaxSlotParts(x: string, n: nat, rest: seq<Token>)
    ensures MaxSlot(Chars(x) + ([Slot(n)] + rest)) == if n > MaxSlot(rest) then n else MaxSlot(rest)
  {
    MaxSlotOne(Slot(n), x);
    hide MaxSlot, Chars;
    MaxSlotConcat([Slot(n)], rest);
    MaxSlotConcat(Chars(x), [Slot(n)] + rest);
  }

  /** The largest number among the matches. */
  method CountPlaceholders(style: Style, query: string) returns (n: nat)
    ensures n == ExistingPlaceholders(style, query)
  {
    match style {
      case Dollar =>
        var matches := FindMatches(query, 0);
        n := 0;
        for i := 0 to |matches|
          invariant MatchMax(query, matches) ==
                    if n >= MatchMax(query, matches[i..]) then n else MatchMax(query, matches[i..])
        {
          var k := Atoi(query[matches[i].start + 1..matches[i].end]);
          assert matches[i..][1..] == matches[i + 1..];
          if k > n {
            n := k;
          }
        }
        MaxSlotIsMatchMax(query, 0);
        assert query[0..] == query;
      case Question =>
        n := Count(query, '?');
      case Colon =>
        n := 0;
    }
  }

  function Placeholder(style: Style, position: int): string {
    match style
    case Dollar => "$" + Itoa(position)
    case Colon => ":" + Itoa(position)
    case Question => "?"
  }

  // ----- Scanning `:N` -----

  function ExchangedChar(c: char): char {
    if c == ':' then '$' else if c == '$' then ':' else c
  }

  /** Colons and dollar signs exchanged. */
  function Exchanged(s: string): (r: string)
    ensures |r| == |s|
  {
    seq(|s|, i requires 0 <= i < |s| => ExchangedChar(s[i]))
  }

  function ExchangedTokens(ts: seq<Token>): (r: seq<Token>)
    ensures |r| == |ts|
  {
    seq(|ts|, i requires 0 <= i < |ts| => if ts[i].Char? then Char(ExchangedChar(ts[i].c)) else ts[i])
  }

  /** A query as the database scans it: `:N` stands where `$N` does with the two characters exchanged. */
  function Scan(style: Style, s: string): seq<Token> {
    if style == Colon then ExchangedTokens(Tokenize(Exchanged(s))) else Tokenize(s)
  }

  /** The rewriter counts the placeholders that the database sees: under `:N` it counts none. */
  ghost predicate CountsAll(style: Style, query: string) {
    style == Colon ==> MaxSlot(Scan(Colon, query)) == 0
  }

  lemma ScanConcat(style: Style, a: string, b: string)
    requires SafeCut(a, b)
    ensures Scan(style, a + b) == Scan(style, a) + Scan(style, b)
  {
    if style == Colon {
      assert Exchanged(a + b) == Exchanged(a) + Exchanged(b);
      assert SafeCut(Exchanged(a), Exchanged(b));
      TokenizeConcat(Exchanged(a), Exchanged(b));
      ExchangedConcat(Tokenize(Exchanged(a)), Tokenize(Exchanged(b)));
    } else {
      TokenizeConcat(a, b);
    }
  }

  lemma ExchangedConcat(a: seq<Token>, b: seq<Token>)
    ensures ExchangedTokens(a + b) == ExchangedTokens(a) + ExchangedTokens(b)
  {
  }

  lemma {:induction false} ScanPlain(style: Style, s: string)
    requires Plain(s)
    ensures Scan(style, s) == Chars(s)
  {
    TokenizePlain(s);
    if style == Colon {
      assert Exchanged(s) == s;
      hide Tokenize;
      forall i | 0 <= i < |s| ensures ExchangedChar(s[i]) == s[i] {
        assert s[i] in s;
      }
      assert ExchangedTokens(Chars(s)) == Chars(s);
    }
  }

  lemma {:induction false} TokenizePlain(s: string)
    requires '$' !in s
    ensures Tokenize(s) == Chars(s)
  {
    if s != "" {
      assert !SlotAt(s, 0);
      TokenizePlain(s[1..]);
      assert Chars(s) == [Char(s[0])] + Chars(s[1..]);
    }
  }

  lemma ScanSlot(style: Style, n: nat)
    requires style != Question && n <= MAX_INT
    ensures Scan(style, Placeholder(style, n)) == [Slot(n)]
  {
    TokenizeSlot(n);
    if style == Colon {
      var digits := Itoa(n);
      assert forall i :: 0 <= i < |digits| ==> IsDigit(digits[i]);
      hide Itoa, Tokenize;
      assert Exchanged(":" + digits) == "$" + digits;
      assert ExchangedTokens([Slot(n)]) == [Slot(n)];
    }
  }

  // ----- Bindings -----

  /** A query with every placeholder replaced by the argument it is bound to. */
  datatype Piece = Lit(c: char) | Bound(v: Value) | Dangling(n: int)

  function ResolveToken(t: Token, args: seq<Value>): Piece {
    match t
    case Char(c) => Lit(c)
    case Slot(n) => if 1 <= n <= |args| then Bound(args[n - 1]) else Dangling(n)
  }

  function ResolveTokens(ts: seq<Token>, args: seq<Value>): (r: seq<Piece>)
    ensures |r| == |ts|
  {
    seq(|ts|, i requires 0 <= i < |ts| => ResolveToken(ts[i], args))
  }

  /** `?` placeholders take the arguments in order; `k` of them are already taken. */
  function ResolveMarks(s: string, args: seq<Value>, k: nat): (r: seq<Piece>)
    ensures |r| == |s|
  {
    if s == "" then []
    else if s[0] == '?' then
      [if k < |args| then Bound(args[k]) else Dangling(k + 1)] + ResolveMarks(s[1..], args, k + 1)
    else [Lit(s[0])] + ResolveMarks(s[1..], args, k)
  }

  /** The resolved text of `s` when it stands after `k` question marks. */
  function Resolve(style: Style, s: string, args: seq<Value>, k: nat): seq<Piece> {
    if style == Question then ResolveMarks(s, args, k) else ResolveTokens(Scan(style, s), args)
  }

  function Lits(s: string): (r: seq<Piece>)
    ensures |r| == |s|
  {
    seq(|s|, i requires 0 <= i < |s| => Lit(s[i]))
  }

  lemma ResolveTokensConcat(a: seq<Token>, b: seq<Token>, args: seq<Value>)
    ensures ResolveTokens(a + b, args) == ResolveTokens(a, args) + ResolveTokens(b, args)
  {
  }

  lemma CutAfterSpace(a: string, b: string)
    requires a != "" && a[|a| - 1] == ' '
    ensures SafeCut(a, b)
  {
  }

  lemma ResolveConcat(style: Style, a: string, b: string, args: seq<Value>, k: nat)
    requires style != Question ==> SafeCut(a, b)
    ensures Resolve(style, a + b, args, k) == Resolve(style, a, args, k) + Resolve(style, b, args, k + Count(a, '?'))
  {
    hide Scan, SafeCut, ResolveMarks, Count;
    if style == Question {
      ResolveMarksConcat(a, b, args, k);
    } else {
      ScanConcat(style, a, b);
      ResolveTokensConcat(Scan(style, a), Scan(style, b), args);
    }
  }

  lemma {:induction false} ResolveMarksConcat(a: string, b: string, args: seq<Value>, k: nat)
    ensures ResolveMarks(a + b, args, k) == ResolveMarks(a, args, k) + ResolveMarks(b, args, k + Count(a, '?'))
  {
    if a == "" {
      assert a + b == b;
    } else {
      assert (a + b)[1..] == a[1..] + b && (a + b)[0] == a[0];
      var k' := if a[0] == '?' then k + 1 else k;
      ResolveMarksConcat(a[1..], b, args, k');
      var first := if a[0] != '?' then Lit(a[0]) else if k < |args| then Bound(args[k]) else Dangling(k + 1);
      assert ResolveMarks(a, args, k) == [first] + ResolveMarks(a[1..], args, k');
      assert ResolveMarks(a + b, args, k) == [first] + ResolveMarks(a[1..] + b, args, k');
    }
  }

  /** Text without placeholder characters resolves to itself. */
  predicate Plain(s: string) {
    '?' !in s && '$' !in s && ':' !in s
  }

  lemma ResolvePlain(style: Style, s: string, args: seq<Value>, k: nat)
    requires Plain(s)
    ensures Resolve(style, s, args, k) == Lits(s) && Count(s, '?') == 0
  {
    CountAbsent(s, '?');
    if style == Question {
      ResolveMarksPlain(s, args, k);
    } else {
      ScanPlain(style, s);
    }
  }

  lemma {:induction false} ResolveMarksPlain(s: string, args: seq<Value>, k: nat)
    requires '?' !in s
    ensures ResolveMarks(s, args, k) == Lits(s)
  {
    if s != "" {
      ResolveMarksPlain(s[1..], args, k);
      assert Lits(s) == [Lit(s[0])] + Lits(s[1..]);
    }
  }

  /** Under `$N` and `:N`, arguments beyond the highest slot change nothing. */
  lemma ResolveNumberedExtend(style: Style, s: string, args: seq<Value>, more: seq<Value>, j: nat, k: nat)
    requires style != Question && MaxSlot(Scan(style, s)) <= |args|
    ensures Resolve(style, s, args + more, j) == Resolve(style, s, args, k)
  {
    var ts := Scan(style, s);
    forall i | 0 <= i < |ts| ensures ResolveToken(ts[i], args + more) == ResolveToken(ts[i], args) {
      assert ts[i] in ts;
    }
  }

  /** Under `?`, text that stands after `k` marks sees the arguments from number `k` on. */
  lemma {:induction false} ResolveMarksShift(s: string, args: seq<Value>, k: nat, args': seq<Value>, k': nat)
    requires k <= |args| && k' <= |args'| && args[k..] == args'[k'..]
    requires k + Count(s, '?') <= |args|
    ensures ResolveMarks(s, args, k) == ResolveMarks(s, args', k')
  {
    if s != "" {
      if s[0] == '?' {
        assert args[k..][0] == args[k] && args'[k'..][0] == args'[k'];
        assert args[k + 1..] == args[k..][1..] && args'[k' + 1..] == args'[k'..][1..];
        ResolveMarksShift(s[1..], args, k + 1, args', k' + 1);
      } else {
        ResolveMarksShift(s[1..], args, k, args', k');
      }
    }
  }

  lemma ResolveSlot(style: Style, n: nat, args: seq<Value>, k: nat)
    requires style != Question && 1 <= n <= |args| && n <= MAX_INT
    ensures Resolve(style, Placeholder(style, n), args, k) == [Bound(args[n - 1])]
  {
    ScanSlot(style, n);
  }
}
