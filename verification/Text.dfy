/** ASCII string operations shared by the query rewriters: case mapping, first-index search,
    trimming, splitting and counting, with the semantics of Go's `strings` package. */
module Text {

  datatype Option<+T> = None | Some(value: T)

  /** How a call ends: with a value, with an error value, or with a run-time panic
      (a slice expression whose bounds are out of range). */
  datatype Outcome<+T> = Ok(value: T) | Err(message: string) | Panic

  predicate IsSpace(c: char) {
    c == ' ' || '\t' <= c <= '\r'
  }

  predicate IsDigit(c: char) {
    '0' <= c <= '9'
  }

  function UpChar(c: char): char {
    if 'a' <= c <= 'z' then (c as int - 32) as char else c
  }

  function LowChar(c: char): char {
    if 'A' <= c <= 'Z' then (c as int + 32) as char else c
  }

  function Upper(s: string): (u: string)
    ensures |u| == |s|
    ensures forall i :: 0 <= i < |s| ==> u[i] == UpChar(s[i])
  {
    seq(|s|, i requires 0 <= i < |s| => UpChar(s[i]))
  }

  function Lower(s: string): (l: string)
    ensures |l| == |s|
    ensures forall i :: 0 <= i < |s| ==> l[i] == LowChar(s[i])
  {
    seq(|s|, i requires 0 <= i < |s| => LowChar(s[i]))
  }

  lemma UpperConcat(a: string, b: string)
    ensures Upper(a + b) == Upper(a) + Upper(b)
  {
  }

  lemma LowerConcat(a: string, b: string)
    ensures Lower(a + b) == Lower(a) + Lower(b)
  {
  }

  /** The letters that have two cases. */
  lemma Alphabet()
    ensures Upper("abcdefghijklmnopqrstuvwxyz") == "ABCDEFGHIJKLMNOPQRSTUVWXYZ"
    ensures Lower("ABCDEFGHIJKLMNOPQRSTUVWXYZ") == "abcdefghijklmnopqrstuvwxyz"
    ensures forall c: char {:trigger UpChar(c)} :: c < 'a' || 'z' < c ==> UpChar(c) == c
    ensures forall c: char {:trigger LowChar(c)} :: c < 'A' || 'Z' < c ==> LowChar(c) == c
  {
    assert |Upper("abcdefghijklmnopqrstuvwxyz")| == 26 == |Lower("ABCDEFGHIJKLMNOPQRSTUVWXYZ")|;
  }

  /** White space is the blank, the tab and the four line and page breaks. */
  lemma WhiteSpace(c: char)
    ensures IsSpace(c) <==> c in {' ', '\t', '\n', '\r', 11 as char, 12 as char}
  {
    if IsSpace(c) && c != ' ' {
      assert 9 <= c as int <= 13;
    }
  }

  lemma UpperTwice(s: string)
    ensures Upper(Upper(s)) == Upper(s) && Lower(Upper(s)) == Lower(s)
  {
  }

  // ----- Searching -----

  predicate MatchAt(s: string, i: int, p: string) {
    0 <= i && i + |p| <= |s| && s[i..i + |p|] == p
  }

  /** No occurrence of `p` anywhere in `s`. */
  ghost predicate Absent(p: string, s: string) {
    forall i :: !MatchAt(s, i, p)
  }

  function IndexFrom(s: string, p: string, i: nat): (r: int)
    requires i <= |s|
    ensures r == -1 || (i <= r && MatchAt(s, r, p))
    ensures forall j :: i <= j && (r == -1 || j < r) ==> !MatchAt(s, j, p)
    decreases |s| - i
  {
    if MatchAt(s, i, p) then i else if i == |s| then -1 else IndexFrom(s, p, i + 1)
  }

  /** The first index of `p` in `s`, or -1. */
  function Index(s: string, p: string): (r: int)
    ensures r == -1 || MatchAt(s, r, p)
    ensures forall j :: (r == -1 || j < r) ==> !MatchAt(s, j, p)
  {
    IndexFrom(s, p, 0)
  }

  predicate HasPrefix(s: string, p: string) {
    MatchAt(s, 0, p)
  }

  /** A match that lies inside the left or the right half of a concatenation is a match there. */
  lemma MatchConcat(a: string, b: string, i: int, p: string)
    ensures i + |p| <= |a| ==> (MatchAt(a + b, i, p) <==> MatchAt(a, i, p))
    ensures i >= |a| ==> (MatchAt(a + b, i, p) <==> MatchAt(b, i - |a|, p))
  {
    if 0 <= i && i + |p| <= |a| {
      assert (a + b)[i..i + |p|] == a[i..i + |p|];
    }
    if i >= |a| && i + |p| <= |a| + |b| {
      assert (a + b)[i..i + |p|] == b[i - |a|..i - |a| + |p|];
    }
  }

  /** A match of `p + q` is a match of `p` followed by a match of `q`. */
  lemma MatchSplit(s: string, i: int, p: string, q: string)
    ensures MatchAt(s, i, p + q) <==> MatchAt(s, i, p) && MatchAt(s, i + |p|, q)
  {
    if 0 <= i && i + |p| + |q| <= |s| {
      assert s[i..i + |p + q|] == s[i..i + |p|] + s[i + |p|..i + |p| + |q|];
      if s[i..i + |p + q|] == p + q {
        assert s[i..i + |p|] == (p + q)[..|p|] == p;
        assert s[i + |p|..i + |p| + |q|] == (p + q)[|p|..] == q;
      }
    }
  }

  // ----- Counting -----

  function Count(s: string, c: char): (n: nat)
    ensures n <= |s|
  {
    if s == "" then 0 else (if s[0] == c then 1 else 0) + Count(s[1..], c)
  }

  lemma CountConcat(a: string, b: string, c: char)
    ensures Count(a + b, c) == Count(a, c) + Count(b, c)
  {
    if a == "" {
      assert a + b == b;
    } else {
      assert (a + b)[1..] == a[1..] + b;
      CountConcat(a[1..], b, c);
    }
  }

  lemma CountAbsent(s: string, c: char)
    ensures Count(s, c) == 0 <==> c !in s
  {
    if s != "" {
      CountAbsent(s[1..], c);
    }
  }

  // ----- Trimming -----

  ghost predicate AllSpaces(s: string) {
    forall i :: 0 <= i < |s| ==> IsSpace(s[i])
  }

  lemma SpaceBefore(s: string, r: string)
    requires s != "" && IsSpace(s[0]) && |r| < |s| && r == s[1..][|s| - 1 - |r|..] && AllSpaces(s[1..][..|s| - 1 - |r|])
    ensures r == s[|s| - |r|..] && AllSpaces(s[..|s| - |r|])
  {
    var n := |s| - |r|;
    forall i | 0 <= i < n ensures IsSpace(s[i]) {
      if i > 0 {
        assert s[i] == s[1..][..n - 1][i - 1];
      }
    }
    assert s[1..][n - 1..] == s[n..];
  }

  lemma SpaceAfter(s: string, r: string)
    requires s != "" && IsSpace(s[|s| - 1]) && |r| < |s| && r == s[..|s| - 1][..|r|] && AllSpaces(s[..|s| - 1][|r|..])
    ensures r == s[..|r|] && AllSpaces(s[|r|..])
  {
    var t := s[..|s| - 1];
    forall i | |r| <= i < |s| ensures IsSpace(s[i]) {
      if i < |s| - 1 {
        assert s[i] == t[|r|..][i - |r|];
      }
    }
    assert t[..|r|] == s[..|r|];
  }

  function TrimStart(s: string): (r: string)
    ensures |r| <= |s| && r == s[|s| - |r|..]
    ensures AllSpaces(s[..|s| - |r|])
    ensures r == "" || !IsSpace(r[0])
  {
    if s != "" && IsSpace(s[0]) then
      var r := TrimStart(s[1..]);
      SpaceBefore(s, r);
      r
    else s
  }

  function TrimEnd(s: string): (r: string)
    ensures |r| <= |s| && r == s[..|r|]
    ensures AllSpaces(s[|r|..])
    ensures r == "" || !IsSpace(r[|r| - 1])
  {
    if s != "" && IsSpace(s[|s| - 1]) then
      var r := TrimEnd(s[..|s| - 1]);
      SpaceAfter(s, r);
      r
    else s
  }

  function Trim(s: string): string {
    TrimEnd(TrimStart(s))
  }

  ghost predicate Trimmed(s: string) {
    s == "" || (!IsSpace(s[0]) && !IsSpace(s[|s| - 1]))
  }

  /** `Trim` only removes white space at the two ends. */
  lemma TrimParts(s: string) returns (l: string, r: string)
    ensures s == l + Trim(s) + r
    ensures AllSpaces(l) && AllSpaces(r) && Trimmed(Trim(s))
  {
    var m := TrimStart(s);
    var n := TrimEnd(m);
    hide TrimStart, TrimEnd, IsSpace;
    l, r := s[..|s| - |m|], m[|n|..];
    assert s == l + m && m == n + r;
    TrimmedBoth(s);
  }

  lemma TrimmedBoth(s: string)
    ensures Trimmed(Trim(s))
  {
    var m := TrimStart(s);
    var n := TrimEnd(m);
    if n != "" {
      assert n[0] == m[0];
    }
  }

  lemma TrimOfTrimmed(s: string)
    requires Trimmed(s)
    ensures Trim(s) == s
  {
  }

  /** White space around text that has none at its ends is what `Trim` removes. */
  lemma TrimAround(l: string, m: string, r: string)
    requires AllSpaces(l) && AllSpaces(r) && m != "" && Trimmed(m)
    ensures Trim(l + m + r) == m
  {
    hide TrimStart, TrimEnd, IsSpace;
    assert (m + r)[0] == m[0] && l + m + r == l + (m + r);
    TrimStartAround(l, m + r);
    TrimEndAround(m, r);
  }

  lemma {:induction false} TrimStartAround(l: string, m: string)
    requires AllSpaces(l) && m != "" && !IsSpace(m[0])
    ensures TrimStart(l + m) == m
  {
    if l == "" {
      assert l + m == m;
    } else {
      assert IsSpace(l[0]) && (l + m)[1..] == l[1..] + m;
      TrimStartAround(l[1..], m);
    }
  }

  lemma {:induction false} TrimEndAround(m: string, r: string)
    requires AllSpaces(r) && m != "" && !IsSpace(m[|m| - 1])
    ensures TrimEnd(m + r) == m
  {
    if r == "" {
      assert m + r == m;
    } else {
      assert IsSpace(r[|r| - 1]) && (m + r)[..|m + r| - 1] == m + r[..|r| - 1];
      TrimEndAround(m, r[..|r| - 1]);
    }
  }

  /** Letter case and white space do not meet: trimming and upper-casing may change places. */
  lemma TrimUpper(s: string)
    ensures TrimStart(Upper(s)) == Upper(TrimStart(s))
    ensures TrimEnd(Upper(s)) == Upper(TrimEnd(s))
    ensures Trim(Upper(s)) == Upper(Trim(s))
  {
    TrimStartUpper(s);
    TrimEndUpper(s);
    TrimEndUpper(TrimStart(s));
  }

  lemma UpperSpace(s: string, i: nat)
    requires i < |s|
    ensures IsSpace(Upper(s)[i]) <==> IsSpace(s[i])
    ensures Upper(s)[i + 1..] == Upper(s[i + 1..]) && Upper(s)[..i] == Upper(s[..i])
  {
  }

  lemma TrimStartIs(s: string)
    ensures TrimStart(s) == if s != "" && IsSpace(s[0]) then TrimStart(s[1..]) else s
  {
  }

  lemma TrimEndIs(s: string)
    ensures TrimEnd(s) == if s != "" && IsSpace(s[|s| - 1]) then TrimEnd(s[..|s| - 1]) else s
  {
  }

  lemma {:induction false} TrimStartUpper(s: string)
    ensures TrimStart(Upper(s)) == Upper(TrimStart(s))
  {
    hide *;
    TrimStartIs(s);
    TrimStartIs(Upper(s));
    if s != "" {
      UpperSpace(s, 0);
      TrimStartUpper(s[1..]);
    }
  }

  lemma {:induction false} TrimEndUpper(s: string)
    ensures TrimEnd(Upper(s)) == Upper(TrimEnd(s))
  {
    hide *;
    TrimEndIs(s);
    TrimEndIs(Upper(s));
    if s != "" {
      UpperSpace(s, |s| - 1);
      TrimEndUpper(s[..|s| - 1]);
    }
  }

  function TrimSuffix(s: string, suffix: string): string {
    if |suffix| <= |s| && s[|s| - |suffix|..] == suffix then s[..|s| - |suffix|] else s
  }

  // ----- Words -----

  ghost predicate NoSpaces(s: string) {
    forall i :: 0 <= i < |s| ==> !IsSpace(s[i])
  }

  /** The end of the run of non-space characters at the start of `s`. */
  function WordLength(s: string): (n: nat)
    ensures n <= |s|
    ensures NoSpaces(s[..n])
    ensures n == |s| || IsSpace(s[n])
  {
    if s == "" || IsSpace(s[0]) then 0
    else
      var n := WordLength(s[1..]);
      assert s[..n + 1] == [s[0]] + s[1..][..n];
      n + 1
  }

  /** `strings.Fields`: the maximal runs of non-space characters. */
  function Fields(s: string): (ws: seq<string>)
    decreases |s|
  {
    if s == "" then []
    else if IsSpace(s[0]) then Fields(s[1..])
    else [s[..WordLength(s)]] + Fields(s[WordLength(s)..])
  }

  lemma {:induction false} WordLengthConcat(w: string, rest: string)
    requires NoSpaces(w)
    requires rest == "" || IsSpace(rest[0])
    ensures WordLength(w + rest) == |w|
  {
    if w != "" {
      assert (w + rest)[1..] == w[1..] + rest;
      WordLengthConcat(w[1..], rest);
    }
  }

  lemma FieldsWord(w: string, rest: string)
    requires w != "" && NoSpaces(w)
    requires rest == "" || IsSpace(rest[0])
    ensures Fields(w + rest) == [w] + Fields(rest)
  {
    WordLengthConcat(w, rest);
    assert (w + rest)[..|w|] == w && (w + rest)[|w|..] == rest;
  }

  // ----- Replacing and splitting -----

  function ReplaceFirst(s: string, old_: string, new_: string): string {
    var i := Index(s, old_);
    if i == -1 then s else s[..i] + new_ + s[i + |old_|..]
  }

  /** `strings.Split` on a single character. */
  function Split(s: string, c: char): (parts: seq<string>)
    ensures |parts| >= 1
    decreases |s|
  {
    if s == "" then [""]
    else
      var rest := Split(s[1..], c);
      if s[0] == c then [""] + rest else [[s[0]] + rest[0]] + rest[1..]
  }
}
