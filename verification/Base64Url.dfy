/** Unpadded base64url, section 5 of RFC 4648, as the Go standard library implements it for
    operator/server/handler/auth.go: its decoder skips line breaks and ignores spare bits. */
module Base64Url {
  import opened GoTypes

  type Byte = x: int | 0 <= x < 256
  type Sextet = x: int | 0 <= x < 64

  /* ---- Letters ---- */

  function Letter(v: Sextet): char {
    if v < 26 then (v + 'A' as int) as char
    else if v < 52 then (v - 26 + 'a' as int) as char
    else if v < 62 then (v - 52 + '0' as int) as char
    else if v == 62 then '-'
    else '_'
  }

  function Digit(c: char): Option<Sextet> {
    if 'A' <= c <= 'Z' then Some(c as int - 'A' as int)
    else if 'a' <= c <= 'z' then Some(c as int - 'a' as int + 26)
    else if '0' <= c <= '9' then Some(c as int - '0' as int + 52)
    else if c == '-' then Some(62)
    else if c == '_' then Some(63)
    else None
  }

  lemma LettersAreDigits(v: Sextet)
    ensures Digit(Letter(v)) == Some(v)
  {
  }

  lemma DigitsAreLetters(c: char)
    requires Digit(c).Some?
    ensures Letter(Digit(c).value) == c
  {
  }

  /* ---- Bytes to sextets and back ---- */

  /** Three bytes as four sextets; a missing byte counts as zero. */
  function First(a: Byte): Sextet { a / 4 }
  function Second(a: Byte, b: Byte): Sextet { a % 4 * 16 + b / 16 }
  function Third(b: Byte, c: Byte): Sextet { b % 16 * 4 + c / 64 }
  function Fourth(c: Byte): Sextet { c % 64 }

  /** And back. */
  function ByteOne(p: Sextet, q: Sextet): Byte { p * 4 + q / 16 }
  function ByteTwo(q: Sextet, r: Sextet): Byte { q % 16 * 16 + r / 4 }
  function ByteThree(r: Sextet, s: Sextet): Byte { r % 4 * 64 + s }

  lemma BytesAreKept(a: Byte, b: Byte, c: Byte)
    ensures ByteOne(First(a), Second(a, b)) == a
    ensures ByteTwo(Second(a, b), Third(b, c)) == b
    ensures ByteThree(Third(b, c), Fourth(c)) == c
  {
  }

  lemma SextetsAreKept(p: Sextet, q: Sextet, r: Sextet, s: Sextet)
    ensures First(ByteOne(p, q)) == p
    ensures Second(ByteOne(p, q), ByteTwo(q, r)) == q
    ensures Third(ByteTwo(q, r), ByteThree(r, s)) == r
    ensures Fourth(ByteThree(r, s)) == s
    ensures Second(ByteOne(p, q), 0) == q <==> q % 16 == 0
    ensures Third(ByteTwo(q, r), 0) == r <==> r % 4 == 0
  {
  }

  function Split(b: seq<Byte>): seq<Sextet> {
    if |b| == 0 then []
    else if |b| == 1 then One(b[0])
    else if |b| == 2 then Two(b[0], b[1])
    else Three(b[0], b[1], b[2]) + Split(b[3..])
  }

  function One(a: Byte): seq<Sextet> {
    [First(a), Second(a, 0)]
  }

  function Two(a: Byte, b: Byte): seq<Sextet> {
    [First(a), Second(a, b), Third(b, 0)]
  }

  function Three(a: Byte, b: Byte, c: Byte): seq<Sextet> {
    [First(a), Second(a, b), Third(b, c), Fourth(c)]
  }

  function Join(s: seq<Sextet>): seq<Byte> {
    if |s| < 2 then []
    else if |s| == 2 then [ByteOne(s[0], s[1])]
    else if |s| == 3 then [ByteOne(s[0], s[1]), ByteTwo(s[1], s[2])]
    else [ByteOne(s[0], s[1]), ByteTwo(s[1], s[2]), ByteThree(s[2], s[3])] + Join(s[4..])
  }

  lemma JoinFour(p: Sextet, q: Sextet, r: Sextet, s: Sextet, rest: seq<Sextet>)
    ensures Join([p, q, r, s] + rest) == [ByteOne(p, q), ByteTwo(q, r), ByteThree(r, s)] + Join(rest)
  {
    assert ([p, q, r, s] + rest)[4..] == rest;
  }

  lemma SplitThree(a: Byte, b: Byte, c: Byte, rest: seq<Byte>)
    ensures Split([a, b, c] + rest) == [First(a), Second(a, b), Third(b, c), Fourth(c)] + Split(rest)
  {
    assert ([a, b, c] + rest)[3..] == rest;
  }

  lemma JoinSplitThree(a: Byte, b: Byte, c: Byte, rest: seq<Byte>)
    requires Join(Split(rest)) == rest
    ensures Join(Split([a, b, c] + rest)) == [a, b, c] + rest
  {
    var sextets := Split(rest);
    SplitThree(a, b, c, rest);
    JoinFour(First(a), Second(a, b), Third(b, c), Fourth(c), sextets);
    BytesAreKept(a, b, c);
  }

  lemma JoinShort(p: Sextet, q: Sextet, r: Sextet)
    ensures Join([p, q]) == [ByteOne(p, q)]
    ensures Join([p, q, r]) == [ByteOne(p, q), ByteTwo(q, r)]
  {
  }

  lemma JoinSplitOne(a: Byte)
    ensures Join(Split([a])) == [a]
  {
    var p, q := First(a), Second(a, 0);
    FirstIsKept(a);
    JoinShort(p, q, q);
    assert Split([a]) == [p, q];
  }

  lemma FirstIsKept(a: Byte)
    ensures ByteOne(First(a), Second(a, 0)) == a
  {
  }

  lemma JoinSplitTwo(a: Byte, b: Byte)
    ensures Join(Split([a, b])) == [a, b]
  {
    BytesAreKept(a, b, 0);
    JoinShort(First(a), Second(a, b), Third(b, 0));
  }

  lemma {:induction false} JoinSplit(b: seq<Byte>)
    ensures Join(Split(b)) == b
  {
    if |b| == 1 {
      JoinSplitOne(b[0]);
      assert b == [b[0]];
    } else if |b| == 2 {
      JoinSplitTwo(b[0], b[1]);
      assert b == [b[0], b[1]];
    } else if |b| >= 3 {
      JoinSplit(b[3..]);
      JoinSplitThree(b[0], b[1], b[2], b[3..]);
      assert b == [b[0], b[1], b[2]] + b[3..];
    }
  }

  lemma LengthStep(n: nat)
    ensures (8 * (n + 3) + 5) / 6 == 4 + (8 * n + 5) / 6
  {
  }

  lemma {:induction false} SplitLength(b: seq<Byte>)
    ensures |Split(b)| == (8 * |b| + 5) / 6 && |Split(b)| % 4 != 1
  {
    if |b| >= 3 {
      SplitLength(b[3..]);
      LengthStep(|b| - 3);
      assert |Split(b)| == 4 + |Split(b[3..])|;
    }
  }

  /** The bits of the last sextet that belong to no byte. */
  function SpareBits(s: seq<Sextet>): int {
    if |s| % 4 == 2 then s[|s| - 1] % 16 else if |s| % 4 == 3 then s[|s| - 1] % 4 else 0
  }

  lemma SplitJoinShort(p: Sextet, q: Sextet, r: Sextet)
    ensures Split(Join([p, q])) == [p, q] <==> q % 16 == 0
    ensures Split(Join([p, q, r])) == [p, q, r] <==> r % 4 == 0
    ensures |Split(Join([p, q]))| == 2 && |Split(Join([p, q, r]))| == 3
  {
    SextetsAreKept(p, q, r, 0);
    assert Split(Join([p, q])) == [First(ByteOne(p, q)), Second(ByteOne(p, q), 0)];
    assert Split(Join([p, q, r]))
        == [First(ByteOne(p, q)), Second(ByteOne(p, q), ByteTwo(q, r)), Third(ByteTwo(q, r), 0)];
  }

  lemma SplitJoinFour(p: Sextet, q: Sextet, r: Sextet, s: Sextet, rest: seq<Sextet>)
    ensures Split(Join([p, q, r, s] + rest)) == [p, q, r, s] + Split(Join(rest))
  {
    JoinFour(p, q, r, s, rest);
    SplitThree(ByteOne(p, q), ByteTwo(q, r), ByteThree(r, s), Join(rest));
    SextetsAreKept(p, q, r, s);
  }

  lemma {:induction false} SplitJoin(s: seq<Sextet>)
    requires |s| % 4 != 1
    ensures Split(Join(s)) == s <==> SpareBits(s) == 0
    ensures |Split(Join(s))| == |s|
  {
    if |s| == 2 {
      SplitJoinShort(s[0], s[1], 0);
      assert s == [s[0], s[1]];
    } else if |s| == 3 {
      SplitJoinShort(s[0], s[1], s[2]);
      assert s == [s[0], s[1], s[2]];
    } else if |s| >= 4 {
      var rest := s[4..];
      SplitJoin(rest);
      SplitJoinFour(s[0], s[1], s[2], s[3], rest);
      SameSpareBits(s);
      assert s == [s[0], s[1], s[2], s[3]] + rest;
      SameFront([s[0], s[1], s[2], s[3]], Split(Join(rest)), rest);
    }
  }

  lemma SameSpareBits(s: seq<Sextet>)
    requires |s| >= 4
    ensures SpareBits(s) == SpareBits(s[4..]) && |s[4..]| % 4 == |s| % 4
  {
  }

  lemma SameFront(four: seq<Sextet>, x: seq<Sextet>, y: seq<Sextet>)
    ensures four + x == four + y <==> x == y
  {
    if four + x == four + y {
      assert x == (four + x)[|four|..] && y == (four + y)[|four|..];
    }
  }

  /* ---- Bit by bit ---- */

  const TABLE := "ABCDEFGHIJKLMNOPQRSTUVWXYZ" + "abcdefghijklmnopqrstuvwxyz" + "0123456789" + "-_"

  /** The alphabet is Table 2 of RFC 4648. */
  lemma LettersAreTheTable(v: Sextet)
    ensures |TABLE| == 64 && Letter(v) == TABLE[v]
  {
    var upper, lower, digits := "ABCDEFGHIJKLMNOPQRSTUVWXYZ", "abcdefghijklmnopqrstuvwxyz", "0123456789";
    if v < 26 {
      assert TABLE[v] == upper[v];
    } else if v < 52 {
      assert TABLE[v] == lower[v - 26];
    } else if v < 62 {
      assert TABLE[v] == digits[v - 52];
    }
  }

  /** Digits in base 256 and in base 64. */
  function Base256(a: int, b: int, c: int): int {
    a * 65536 + b * 256 + c
  }

  function Base64(p: int, q: int, r: int, s: int): int {
    p * 262144 + q * 4096 + r * 64 + s
  }

  /** Three bytes and the four sextets they become are the same 24 bits. */
  predicate SameBits(a: Byte, b: Byte, c: Byte, four: seq<Sextet>) {
    |four| == 4 && Base256(a, b, c) == Base64(four[0], four[1], four[2], four[3])
  }

  /** What is left over, one byte or two, is filled up with zero bits. */
  predicate SameLastBits(rest: seq<Byte>, last: seq<Sextet>) {
    if |rest| == 0 then last == []
    else if |rest| == 1 then |last| == 2 && Base256(rest[0], 0, 0) == Base64(last[0], last[1], 0, 0)
    else |rest| == 2 && |last| == 3 && Base256(rest[0], rest[1], 0) == Base64(last[0], last[1], last[2], 0)
  }

  lemma GroupBits(a: Byte, b: Byte, c: Byte)
    ensures SameBits(a, b, c, [First(a), Second(a, b), Third(b, c), Fourth(c)])
    ensures SameLastBits([a], [First(a), Second(a, 0)])
    ensures SameLastBits([a, b], [First(a), Second(a, b), Third(b, 0)])
  {
  }

  /** Byte string and sextets are the same bits in the same order, group by group. */
  ghost predicate SameGroups(b: seq<Byte>, s: seq<Sextet>) {
    var n := |b| / 3;
    && |s| >= 4 * n
    && (forall k | 0 <= k < n :: SameBits(b[3 * k], b[3 * k + 1], b[3 * k + 2], s[4 * k..4 * k + 4]))
    && SameLastBits(b[3 * n..], s[4 * n..])
  }

  lemma OneMoreGroup(three: seq<Byte>, four: seq<Sextet>, b: seq<Byte>, s: seq<Sextet>)
    requires |three| == 3 && SameBits(three[0], three[1], three[2], four) && SameGroups(b, s)
    ensures SameGroups(three + b, four + s)
  {
    var bytes, sextets, n := three + b, four + s, |b| / 3;
    assert |bytes| / 3 == n + 1;
    forall k | 0 <= k < n + 1
      ensures SameBits(bytes[3 * k], bytes[3 * k + 1], bytes[3 * k + 2], sextets[4 * k..4 * k + 4])
    {
      if k == 0 {
        assert sextets[0..4] == four;
      } else {
        assert sextets[4 * k..4 * k + 4] == s[4 * (k - 1)..4 * (k - 1) + 4];
        assert SameBits(b[3 * (k - 1)], b[3 * (k - 1) + 1], b[3 * (k - 1) + 2], s[4 * (k - 1)..4 * (k - 1) + 4]);
      }
    }
    assert bytes[3 * (n + 1)..] == b[3 * n..] && sextets[4 * (n + 1)..] == s[4 * n..];
  }

  /** Encoding rearranges bits into sixes and nothing else; only zero bits are added, at the end. */
  lemma {:induction false} SplitKeepsBits(b: seq<Byte>)
    ensures SameGroups(b, Split(b))
  {
    if |b| >= 3 {
      SplitKeepsBits(b[3..]);
      GroupBits(b[0], b[1], b[2]);
      OneMoreGroup(b[..3], [First(b[0]), Second(b[0], b[1]), Third(b[1], b[2]), Fourth(b[2])], b[3..], Split(b[3..]));
      assert b[..3] + b[3..] == b;
    } else if |b| == 2 {
      GroupBits(b[0], b[1], 0);
      assert b[0..] == [b[0], b[1]] && Split(b)[0..] == Split(b);
    } else if |b| == 1 {
      GroupBits(b[0], 0, 0);
      assert b[0..] == [b[0]] && Split(b)[0..] == Split(b);
    }
  }

  /* ---- Text ---- */

  function Write(s: seq<Sextet>): (t: string)
    ensures |t| == |s| && forall i | 0 <= i < |t| :: t[i] == Letter(s[i])
  {
    seq(|s|, i requires 0 <= i < |s| => Letter(s[i]))
  }

  function Encode(b: seq<Byte>): string {
    Write(Split(b))
  }

  function WithoutBreaks(t: string): (u: string)
    ensures forall c <- u :: c in t && c != '\r' && c != '\n'
    ensures u == t <==> '\r' !in t && '\n' !in t
  {
    if t == [] then []
    else (if t[0] == '\r' || t[0] == '\n' then [] else [t[0]]) + WithoutBreaks(t[1..])
  }

  function Read(t: string): Option<seq<Sextet>> {
    if forall c <- t :: Digit(c).Some? then
      Some(seq(|t|, i requires 0 <= i < |t| => assert t[i] in t; Digit(t[i]).value))
    else None
  }

  function Decode(t: string): Result<seq<Byte>> {
    var s := Read(WithoutBreaks(t));
    if s.None? || |s.value| % 4 == 1 then Err("illegal base64 data") else Ok(Join(s.value))
  }

  predicate IsLetter(c: char) {
    Digit(c).Some?
  }

  lemma ReadWrite(s: seq<Sextet>)
    ensures Read(Write(s)) == Some(s)
    ensures forall c <- Write(s) :: IsLetter(c)
  {
    var t := Write(s);
    forall i | 0 <= i < |t| ensures Digit(t[i]) == Some(s[i]) {
      LettersAreDigits(s[i]);
    }
    assert forall c <- t :: IsLetter(c);
    assert Read(t).value == s;
  }

  lemma WriteRead(t: string)
    requires Read(t).Some?
    ensures Write(Read(t).value) == t
  {
    forall i | 0 <= i < |t| ensures Letter(Read(t).value[i]) == t[i] {
      assert t[i] in t;
      DigitsAreLetters(t[i]);
    }
  }

  /** Every byte string is read back from its encoding, which is made of letters only, neither
      '.' nor line break among them, and has the least possible length. */
  lemma RoundTrip(b: seq<Byte>)
    ensures Decode(Encode(b)) == Ok(b)
    ensures forall c <- Encode(b) :: IsLetter(c)
    ensures '.' !in Encode(b) && '\r' !in Encode(b) && '\n' !in Encode(b)
    ensures |Encode(b)| == (8 * |b| + 5) / 6
  {
    JoinSplit(b);
    SplitLength(b);
    ReadWrite(Split(b));
    assert !IsLetter('\r') && !IsLetter('\n') && !IsLetter('.');
    assert WithoutBreaks(Encode(b)) == Encode(b);
  }

  /** The encoding of a byte string spells the sextets of its bits in the letters of the table. */
  lemma EncodingIs(b: seq<Byte>, s: seq<Sextet>)
    requires SameGroups(b, s)
    ensures |Encode(b)| == |s| && forall i | 0 <= i < |s| :: Encode(b)[i] == TABLE[s[i]]
  {
    SplitKeepsBits(b);
    SameBitsSameSextets(b, s, Split(b));
    forall i | 0 <= i < |s| ensures Encode(b)[i] == TABLE[s[i]] {
      LettersAreTheTable(s[i]);
    }
  }

  lemma DigitsAreUnique(p: Sextet, q: Sextet, r: Sextet, s: Sextet, t: Sextet, u: Sextet, v: Sextet, w: Sextet)
    requires Base64(p, q, r, s) == Base64(t, u, v, w)
    ensures p == t && q == u && r == v && s == w
  {
  }

  lemma FourAreOne(a: Byte, b: Byte, c: Byte, x: seq<Sextet>, y: seq<Sextet>)
    requires SameBits(a, b, c, x) && SameBits(a, b, c, y)
    ensures x == y
  {
    DigitsAreUnique(x[0], x[1], x[2], x[3], y[0], y[1], y[2], y[3]);
  }

  lemma LastAreOne(rest: seq<Byte>, x: seq<Sextet>, y: seq<Sextet>)
    requires SameLastBits(rest, x) && SameLastBits(rest, y)
    ensures x == y
  {
    if |rest| == 1 {
      DigitsAreUnique(x[0], x[1], 0, 0, y[0], y[1], 0, 0);
    } else if |rest| == 2 {
      DigitsAreUnique(x[0], x[1], x[2], 0, y[0], y[1], y[2], 0);
    }
  }

  lemma SameBitsSameSextets(b: seq<Byte>, x: seq<Sextet>, y: seq<Sextet>)
    requires SameGroups(b, x) && SameGroups(b, y)
    ensures x == y
  {
    var n := |b| / 3;
    LastAreOne(b[3 * n..], x[4 * n..], y[4 * n..]);
    forall k | 0 <= k < n ensures x[4 * k..4 * k + 4] == y[4 * k..4 * k + 4] {
      FourAreOne(b[3 * k], b[3 * k + 1], b[3 * k + 2], x[4 * k..4 * k + 4], y[4 * k..4 * k + 4]);
    }
    assert |x| == 4 * n + |x[4 * n..]| == 4 * n + |y[4 * n..]| == |y|;
    forall i | 0 <= i < |x| ensures x[i] == y[i] {
      if i < 4 * n {
        var k := i / 4;
        assert x[i] == x[4 * k..4 * k + 4][i - 4 * k] && y[i] == y[4 * k..4 * k + 4][i - 4 * k];
      } else {
        assert x[i] == x[4 * n..][i - 4 * n] && y[i] == y[4 * n..][i - 4 * n];
      }
    }
  }

  /** A text that decodes is the encoding of what it decodes to exactly when it has no line break
      and its spare bits are zero. */
  lemma CanonicalText(t: string)
    requires Decode(t).Ok?
    ensures Encode(Decode(t).value) == t
            <==> '\r' !in t && '\n' !in t && SpareBits(Read(WithoutBreaks(t)).value) == 0
  {
    var u := WithoutBreaks(t);
    var s := Read(u).value;
    WriteRead(u);
    SplitJoin(s);
    if Encode(Join(s)) == t {
      RoundTrip(Join(s));
      ReadWrite(Split(Join(s)));
    }
  }
}
