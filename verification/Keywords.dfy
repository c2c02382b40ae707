/** Reserved words as the rewriters look for them: the first occurrence, in upper case, of words
    that stand between single spaces. */
module Keywords {
  import opened Text

  // ----- Searching a list of keywords -----

  /** The earliest occurrence of any of `kws` in `u`, with the keyword found there: the loop over a keyword list,
      which moves its position only to a strictly earlier match. (|u|, "") when none occurs. */
  function FirstOf(u: string, kws: seq<string>): (r: (nat, string))
    requires "" !in kws
    ensures r.0 <= |u|
    ensures r.1 == "" <==> r.0 == |u|
    ensures r.1 != "" ==> r.1 in kws && MatchAt(u, r.0, r.1)
    ensures forall kw, i :: kw in kws && i < r.0 ==> !MatchAt(u, i, kw)
  {
    if kws == [] then (|u|, "")
    else
      var best := FirstOf(u, kws[..|kws| - 1]);
      var kw := kws[|kws| - 1];
      var pos := Index(u, kw);
      assert forall k :: k in kws ==> k in kws[..|kws| - 1] || k == kw;
      if pos != -1 && pos < best.0 then (pos, kw) else best
  }

  method FindFirst(u: string, kws: seq<string>) returns (pos: nat, keyword: string)
    requires "" !in kws
    ensures (pos, keyword) == FirstOf(u, kws)
  {
    pos, keyword := |u|, "";
    for k := 0 to |kws|
      invariant (pos, keyword) == FirstOf(u, kws[..k])
    {
      var p := Index(u, kws[k]);
      assert kws[..k + 1][..k] == kws[..k];
      if p != -1 && p < pos {
        pos, keyword := p, kws[k];
      }
    }
    assert kws[..|kws|] == kws;
  }

  // ----- Words standing alone -----

  /** A keyword text that starts with the word `w` between spaces. */
  ghost predicate Opens(kw: string, w: string) {
    w != "" && NoSpaces(w) && MatchAt(kw, 0, " " + w + " ")
  }

  /** The word `w` does not stand alone anywhere in `a`, in any letter case. */
  ghost predicate Clean(a: string, w: string) {
    Absent(" " + w + " ", " " + Upper(a) + " ")
  }

  ghost predicate CleanOf(a: string, ws: seq<string>) {
    forall w :: w in ws ==> Clean(a, w)
  }

  /** A word cannot straddle a space. */
  lemma CleanSpace(a: string, b: string, w: string)
    requires NoSpaces(w) && Clean(a, w) && Clean(b, w)
    ensures Clean(a + " " + b, w)
  {
    var p := " " + w + " ";
    var left := " " + Upper(a) + " ";
    var right := " " + Upper(b) + " ";
    var s := " " + Upper(a + " " + b) + " ";
    assert s == " " + Upper(a) + right == left + (Upper(b) + " ");
    hide Upper;
    assert s[|a| + 1] == ' ' && forall k :: 0 < k < |p| - 1 ==> p[k] == w[k - 1];
    forall i ensures !MatchAt(s, i, p) {
      if MatchAt(s, i, p) {
        MatchConcat(left, Upper(b) + " ", i, p);
        MatchConcat(" " + Upper(a), right, i, p);
      }
    }
  }

  lemma CleanWord(v: string, w: string)
    requires NoSpaces(v) && NoSpaces(w) && w != "" && Upper(v) != w
    ensures Clean(v, w)
  {
    var p := " " + w + " ";
    var s := " " + Upper(v) + " ";
    assert p[0] == ' ' && p[|p| - 1] == ' ' && w == p[1..|p| - 1];
    forall i ensures !MatchAt(s, i, p) {
      if MatchAt(s, i, p) {
        assert false;
      }
    }
  }

  /** A match that covers a space inside the word is impossible. */
  lemma WordCrossing(u: string, i: nat, p: string, j: nat)
    requires MatchAt(u, i, p) && i <= j < i + |p|
    ensures u[j] == p[j - i]
  {
    assert u[j] == u[i..i + |p|][j - i];
  }

  /** No keyword that opens with `w` starts inside a text free of `w`, even when it would run past its end. */
  lemma NoEarlyMatch(a: string, rest: string, kw: string, w: string)
    requires Opens(kw, w) && Clean(a, w)
    requires rest == "" || rest[0] == ' '
    ensures forall i :: i < |a| ==> !MatchAt(Upper(a + rest), i, kw)
  {
    var p := " " + w + " ";
    var u := Upper(a + rest);
    UpperConcat(a, rest);
    assert kw == p + kw[|p|..];
    assert rest != "" ==> u[|a|] == ' ';
    assert forall k :: 0 < k < |p| - 1 ==> p[k] == w[k - 1];
    forall i | i < |a| ensures !MatchAt(u, i, kw) {
      if MatchAt(u, i, kw) {
        MatchSplit(u, i, p, kw[|p|..]);
        if i + |p| <= |a| + 1 {
          var padded := " " + Upper(a) + " ";
          assert padded[i + 1..i + 1 + |p|] == u[i..i + |p|];
          assert MatchAt(padded, i + 1, p);
        } else {
          WordCrossing(u, i, p, |a|);
        }
      }
    }
  }

  /** The first occurrence of a keyword is where the part free of its word ends. */
  lemma IndexAt(a: string, rest: string, kw: string, w: string)
    requires Opens(kw, w) && Clean(a, w)
    requires rest != "" && rest[0] == ' ' && MatchAt(Upper(rest), 0, kw)
    ensures Index(Upper(a + rest), kw) == |a|
  {
    NoEarlyMatch(a, rest, kw, w);
    UpperConcat(a, rest);
    MatchConcat(Upper(a), Upper(rest), |a|, kw);
  }

  lemma IndexNone(a: string, kw: string, w: string)
    requires Opens(kw, w) && Clean(a, w)
    ensures Index(Upper(a), kw) == -1
  {
    NoEarlyMatch(a, "", kw, w);
    assert a + "" == a;
  }

  /** Every keyword of a list opens with the word listed beside it. */
  ghost predicate OpensAll(kws: seq<string>, ws: seq<string>) {
    |kws| == |ws| && forall k :: 0 <= k < |kws| ==> Opens(kws[k], ws[k])
  }

  /** What may follow a part: nothing, or a text that starts with one of the keywords. */
  ghost predicate StartsWithOneOf(rest: string, kws: seq<string>) {
    rest != "" && rest[0] == ' ' && exists k :: 0 <= k < |kws| && MatchAt(Upper(rest), 0, kws[k])
  }

  lemma FirstNotBefore(a: string, rest: string, kws: seq<string>, ws: seq<string>)
    requires OpensAll(kws, ws) && CleanOf(a, ws) && "" !in kws
    requires rest == "" || rest[0] == ' '
    ensures FirstOf(Upper(a + rest), kws).0 >= |a|
  {
    var r := FirstOf(Upper(a + rest), kws);
    if r.0 < |a| {
      var k :| 0 <= k < |kws| && kws[k] == r.1;
      assert Opens(kws[k], ws[k]) && ws[k] in ws;
      NoEarlyMatch(a, rest, kws[k], ws[k]);
    }
  }

  lemma FirstOfAt(a: string, rest: string, kws: seq<string>, ws: seq<string>)
    requires OpensAll(kws, ws) && CleanOf(a, ws) && "" !in kws
    requires rest == "" || StartsWithOneOf(rest, kws)
    ensures FirstOf(Upper(a + rest), kws).0 == |a|
  {
    FirstNotBefore(a, rest, kws, ws);
    if rest != "" {
      var k :| 0 <= k < |kws| && MatchAt(Upper(rest), 0, kws[k]);
      UpperConcat(a, rest);
      MatchConcat(Upper(a), Upper(rest), |a|, kws[k]);
      assert kws[k] in kws;
    }
  }

  /** No keyword of the list is a prefix of another one. */
  ghost predicate PrefixFree(kws: seq<string>) {
    forall k, l :: 0 <= k < |kws| && 0 <= l < |kws| && k != l ==> !(kws[k] <= kws[l])
  }

  lemma SamePlace(u: string, i: int, p: string, q: string)
    requires MatchAt(u, i, p) && MatchAt(u, i, q)
    ensures p <= q || q <= p
  {
    if |p| <= |q| {
      assert q[..|p|] == u[i..i + |p|];
    } else {
      assert p[..|q|] == u[i..i + |q|];
    }
  }

  /** Then the place determines the keyword. */
  lemma FirstKeywordAt(a: string, rest: string, kws: seq<string>, ws: seq<string>, k: nat)
    requires OpensAll(kws, ws) && CleanOf(a, ws) && "" !in kws && PrefixFree(kws)
    requires k < |kws| && rest != "" && rest[0] == ' ' && MatchAt(Upper(rest), 0, kws[k])
    ensures FirstOf(Upper(a + rest), kws) == (|a|, kws[k])
  {
    FirstOfAt(a, rest, kws, ws);
    var u := Upper(a + rest);
    var r := FirstOf(u, kws);
    UpperConcat(a, rest);
    MatchConcat(Upper(a), Upper(rest), |a|, kws[k]);
    assert kws[k] in kws;
    var l :| 0 <= l < |kws| && kws[l] == r.1;
    SamePlace(u, |a|, kws[k], kws[l]);
  }

  // ----- Words in a row -----

  predicate IsWord(w: string) {
    w != "" && (forall i :: 0 <= i < |w| ==> !IsSpace(w[i]) && UpChar(w[i]) == w[i])
  }

  /** The words with a space before each and one at the end. */
  function Spaced(ws: seq<string>): string {
    if ws == [] then " " else " " + ws[0] + Spaced(ws[1..])
  }

  lemma CleanOfWord(v: string, w: string)
    requires IsWord(v) && IsWord(w) && v != w
    ensures Clean(v, w)
  {
    assert Upper(v) == v;
    CleanWord(v, w);
  }

  lemma CleanEmpty(w: string)
    requires IsWord(w)
    ensures Clean("", w)
  {
    CleanWord("", w);
  }

  /** Parts free of `w` stay so when other words are put between them. */
  lemma {:induction false} CleanSpaced(a: string, ws: seq<string>, b: string, w: string)
    requires IsWord(w) && Clean(a, w) && Clean(b, w)
    requires forall v :: v in ws ==> IsWord(v) && v != w
    ensures Clean(a + Spaced(ws) + b, w)
    decreases |ws|
  {
    assert NoSpaces(w);
    hide IsWord, Clean, NoSpaces;
    if ws == [] {
      CleanSpace(a, b, w);
    } else {
      assert IsWord(ws[0]) && ws[0] != w;
      CleanOfWord(ws[0], w);
      CleanSpace(a, ws[0], w);
      hide Spaced;
      CleanSpaced(a + " " + ws[0], ws[1..], b, w);
      SpacedStep(a, ws, b);
    }
  }

  lemma SpacedStep(a: string, ws: seq<string>, b: string)
    requires ws != []
    ensures a + Spaced(ws) + b == a + " " + ws[0] + Spaced(ws[1..]) + b
  {
  }

  lemma OpensWith(w: string, rest: string)
    requires IsWord(w) && rest != "" && rest[0] == ' '
    ensures Opens(" " + w + rest, w)
  {
    assert (" " + w + rest)[..|w| + 2] == " " + w + " ";
  }

  /** A text starts with an upper-case keyword it was printed with. */
  lemma StartsLiteral(kw: string, rest: string)
    requires Upper(kw) == kw
    ensures MatchAt(Upper(kw + rest), 0, kw)
  {
    UpperConcat(kw, rest);
    MatchConcat(kw, Upper(rest), 0, kw);
  }

  lemma WhereUpper()
    ensures Upper(" WHERE ") == " WHERE "
  {
  }
}
