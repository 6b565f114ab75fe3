/** The string operations the verdict parser uses, with the meaning Go's strings package gives
    them on ASCII text. */
module Text {
  predicate OccursAt(s: string, sub: string, i: int) {
    0 <= i && i + |sub| <= |s| && s[i..i + |sub|] == sub
  }

  ghost predicate Occurs(s: string, sub: string) {
    exists i :: OccursAt(s, sub, i)
  }

  /** The first place at or after i where sub occurs, or -1. */
  function IndexFrom(s: string, sub: string, i: nat): (r: int)
    requires i <= |s|
    ensures r == -1 || (i <= r && OccursAt(s, sub, r))
    ensures forall j | i <= j && (r == -1 || j < r) :: !OccursAt(s, sub, j)
    decreases |s| - i
  {
    if OccursAt(s, sub, i) then i
    else if i == |s| then -1
    else IndexFrom(s, sub, i + 1)
  }

  function Index(s: string, sub: string): (r: int)
    ensures r == -1 <==> !Occurs(s, sub)
    ensures r != -1 ==> OccursAt(s, sub, r)
    ensures forall j | 0 <= j < r :: !OccursAt(s, sub, j)
  {
    IndexFrom(s, sub, 0)
  }

  predicate HasPrefix(s: string, p: string) {
    |p| <= |s| && s[..|p|] == p
  }

  function UpperChar(c: char): char {
    if 'a' <= c <= 'z' then c - 'a' + 'A' else c
  }

  function ToUpper(s: string): (u: string)
    ensures |u| == |s| && forall i | 0 <= i < |s| :: u[i] == UpperChar(s[i])
  {
    seq(|s|, i requires 0 <= i < |s| => UpperChar(s[i]))
  }

  predicate IsSpace(c: char) {
    c in "\t\n\U{0B}\U{0C}\r \U{85}\U{A0}"
  }

  function TrimLeft(s: string): string {
    if s != [] && IsSpace(s[0]) then TrimLeft(s[1..]) else s
  }

  function TrimRight(s: string): string {
    if s != [] && IsSpace(s[|s| - 1]) then TrimRight(s[..|s| - 1]) else s
  }

  /** Trimming on the right removes just the spaces at the end. */
  lemma {:induction false} TrimRightCuts(s: string)
    ensures var t := TrimRight(s);
            && (t == [] || !IsSpace(t[|t| - 1]))
            && |t| <= |s| && t == s[..|t|]
            && (forall i | |t| <= i < |s| :: IsSpace(s[i]))
  {
    if s != [] && IsSpace(s[|s| - 1]) {
      var g := s[..|s| - 1];
      TrimRightCuts(g);
      assert forall i | 0 <= i < |g| :: g[i] == s[i];
      assert forall k: nat | k <= |g| :: g[..k] == s[..k];
    }
  }

  function TrimSpace(s: string): string {
    TrimRight(TrimLeft(s))
  }

  lemma ToUpperConcat(a: string, b: string)
    ensures ToUpper(a + b) == ToUpper(a) + ToUpper(b)
  {
  }

  /** One character out of place rules an occurrence out. */
  lemma NotThere(s: string, sub: string, j: nat, i: nat)
    requires i < |sub| && (j + i < |s| ==> s[j + i] != sub[i])
    ensures !OccursAt(s, sub, j)
  {
    if j + |sub| <= |s| {
      assert s[j..j + |sub|][i] == s[j + i];
    }
  }

  /** Occurrences in a concatenation that lie wholly in its second part. */
  lemma OccursAfter(a: string, b: string, sub: string, i: int)
    requires |a| <= i
    ensures OccursAt(a + b, sub, i) <==> OccursAt(b, sub, i - |a|)
  {
    if i + |sub| <= |a| + |b| {
      assert (a + b)[i..i + |sub|] == b[i - |a|..i - |a| + |sub|];
    }
  }

  /** Two different words, each closed by a delimiter neither contains, differ at some place no
      later than the shorter word's delimiter. */
  lemma FirstDifference(u: string, w: string, c: char, x: string, y: string) returns (i: nat)
    requires c !in u && c !in w && u != w
    ensures i <= |u| && i <= |w| && (u + [c] + x)[i] != (w + [c] + y)[i]
  {
    if |u| < |w| {
      i := |u|;
    } else if |w| < |u| {
      i := |w|;
    } else {
      i :| 0 <= i < |u| && u[i] != w[i];
    }
  }

  lemma IndexIs(s: string, sub: string, k: nat)
    requires OccursAt(s, sub, k) && forall j | 0 <= j < k :: !OccursAt(s, sub, j)
    ensures Index(s, sub) == k
  {
    assert Occurs(s, sub);
  }

  ghost predicate BeginsBefore(s: string, sub: string, n: nat) {
    exists j :: 0 <= j < n && OccursAt(s, sub, j)
  }

  lemma IndexShift(front: string, text: string, sub: string)
    requires Occurs(text, sub) && !BeginsBefore(front + text, sub, |front|)
    ensures Occurs(front + text, sub)
    ensures Index(front + text, sub) == |front| + Index(text, sub)
  {
    var k := Index(text, sub);
    OccursAfter(front, text, sub, |front| + k);
    forall j | 0 <= j < |front| + k ensures !OccursAt(front + text, sub, j) {
      if j >= |front| {
        OccursAfter(front, text, sub, j);
      }
    }
    IndexIs(front + text, sub, |front| + k);
  }

  lemma DelimitedMisfit(p: string, u: string, w: string, c: char, x: string, y: string)
    requires c !in u && c !in w && u != w
    ensures !OccursAt(p + (u + [c] + x), p + (w + [c] + y), 0)
  {
    var i := FirstDifference(u, w, c, x, y);
    NotThere(p + (u + [c] + x), p + (w + [c] + y), 0, |p| + i);
  }

  lemma OccursInside(s: string, a: string, b: string, c: string)
    requires Occurs(s, a + b + c)
    ensures Occurs(s, b)
  {
    var i :| OccursAt(s, a + b + c, i);
    var j := i + |a|;
    assert s[j..j + |b|] == (a + b + c)[|a|..|a| + |b|];
    assert OccursAt(s, b, j);
  }

  /** Trimming never hides a word that starts and ends with non-spaces. */
  lemma TrimKeepsPrefix(s: string, p: string)
    requires p != [] && !IsSpace(p[0]) && !IsSpace(p[|p| - 1])
    ensures HasPrefix(TrimSpace(s), p) <==> HasPrefix(TrimLeft(s), p)
  {
    var l := TrimLeft(s);
    var t := TrimRight(l);
    TrimRightCuts(l);
    if HasPrefix(l, p) {
      assert l[|p| - 1] == p[|p| - 1];
      assert |t| >= |p|;
    }
    assert |t| >= |p| ==> t[..|p|] == l[..|p|];
  }

  lemma TrimOneSpace(t: string, p: string)
    requires HasPrefix(t, p) && p != [] && !IsSpace(p[0])
    ensures TrimLeft(" " + t) == t
  {
    assert (" " + t)[1..] == t;
    assert t[0] == t[..|p|][0];
  }

  /** Trimming on the left removes just the spaces in front. */
  lemma {:induction false} TrimLeftCuts(spaces: string, rest: string)
    requires (forall c <- spaces :: IsSpace(c)) && (rest == [] || !IsSpace(rest[0]))
    ensures TrimLeft(spaces + rest) == rest
  {
    if spaces == [] {
      assert spaces + rest == rest;
    } else {
      assert (spaces + rest)[1..] == spaces[1..] + rest;
      TrimLeftCuts(spaces[1..], rest);
    }
  }

  /** The first place from a given one on where sub occurs. */
  ghost predicate FirstAt(s: string, sub: string, from: nat, j: nat) {
    from <= j && OccursAt(s, sub, j) && forall k | from <= k < j :: !OccursAt(s, sub, k)
  }

  lemma FirstAtShift(front: string, s: string, sub: string, j: nat)
    requires FirstAt(s, sub, 0, j)
    ensures FirstAt(front + s, sub, |front|, |front| + j)
  {
    OccursAfter(front, s, sub, |front| + j);
    forall k | |front| <= k < |front| + j ensures !OccursAt(front + s, sub, k) {
      OccursAfter(front, s, sub, k);
    }
  }

  /** Letter case aside, two texts are the same. */
  predicate SameLetters(a: string, b: string) {
    |a| == |b| && forall i | 0 <= i < |a| ::
      a[i] == b[i] || ('a' <= a[i] <= 'z' && a[i] as int == b[i] as int + 32)
                   || ('a' <= b[i] <= 'z' && b[i] as int == a[i] as int + 32)
  }

  lemma UpperForgetsCase(a: string, b: string)
    ensures SameLetters(a, b) <==> ToUpper(a) == ToUpper(b)
  {
    if ToUpper(a) == ToUpper(b) {
      assert |a| == |ToUpper(a)| == |b|;
      assert forall i | 0 <= i < |a| :: UpperChar(a[i]) == ToUpper(a)[i] == ToUpper(b)[i] == UpperChar(b[i]);
    }
  }
}
