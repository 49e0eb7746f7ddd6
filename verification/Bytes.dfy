/** Bytes, little-endian words and strings ended by a zero byte. */
module Bytes {
  import opened Integers

  type byte = x: int | 0 <= x < 256

  datatype Option<T> = None | Some(value: T)

  /** to_ne_bytes on the i386, and the four stores of resolve: `n` bytes, the lowest first. */
  function Le(x: nat, n: nat): (r: seq<byte>)
    ensures |r| == n
  {
    if n == 0 then [] else [x % 256] + Le(x / 256, n - 1)
  }

  function Zeros(n: nat): (r: seq<byte>)
    ensures |r| == n && forall i :: 0 <= i < n ==> r[i] == 0
  {
    seq(n, _ => 0)
  }

  /** The unsigned int at offset `i`. */
  function Word(s: seq<byte>, i: nat): (w: nat)
    requires i + 4 <= |s|
    ensures w < U32
  {
    var a: int, b: int, c: int, d: int := s[i], s[i + 1], s[i + 2], s[i + 3];
    a + 0x100 * b + 0x1_0000 * c + 0x100_0000 * d
  }

  /** The unsigned long long at offset `i`. */
  function Word64(s: seq<byte>, i: nat): nat
    requires i + 8 <= |s|
  {
    Word(s, i) + U32 * Word(s, i + 4)
  }

  lemma LowPart(x: nat, w: nat, q: nat)
    requires x == w + U32 * q && w < U32
    ensures w == x % U32
  {
  }

  lemma LeWord(x: nat)
    ensures Word(Le(x, 4), 0) == x % U32
  {
    var a, b, c := x / 256, x / 256 / 256, x / 256 / 256 / 256;
    assert Le(x, 4) == [x % 256] + Le(a, 3) && Le(a, 3) == [a % 256] + Le(b, 2);
    assert Le(b, 2) == [b % 256] + Le(c, 1) && Le(c, 1) == [c % 256];
    assert x == x % 256 + 256 * a && a == a % 256 + 256 * b && b == b % 256 + 256 * c && c == c % 256 + 256 * (c / 256);
    assert x == Word(Le(x, 4), 0) + U32 * (c / 256);
    LowPart(x, Word(Le(x, 4), 0), c / 256);
  }

  lemma WordAt(s: seq<byte>, t: seq<byte>, i: nat, j: nat)
    requires i + 4 <= |s| && j + 4 <= |t| && s[i..i + 4] == t[j..j + 4]
    ensures Word(s, i) == Word(t, j)
  {
    var a, b := s[i..i + 4], t[j..j + 4];
    assert a[0] == s[i] && a[1] == s[i + 1] && a[2] == s[i + 2] && a[3] == s[i + 3];
    assert b[0] == t[j] && b[1] == t[j + 1] && b[2] == t[j + 2] && b[3] == t[j + 3];
  }

  lemma WordIs(s: seq<byte>, i: nat, x: nat)
    requires i + 4 <= |s| && s[i..i + 4] == Le(x, 4)
    ensures Word(s, i) == x % U32
  {
    LeWord(x);
    hide Word, Le;
    assert Le(x, 4)[0..4] == Le(x, 4);
    WordAt(s, Le(x, 4), i, 0);
  }

  /** The lowest byte comes first. */
  lemma LowestFirst(x: nat)
    requires x < U32
    ensures var b := Le(x, 4);
      && b[0] == x % 256 && b[1] == x / 0x100 % 256 && b[2] == x / 0x1_0000 % 256 && b[3] == x / 0x100_0000
  {
    var a, b, c := x / 256, x / 256 / 256, x / 256 / 256 / 256;
    assert Le(x, 4) == [x % 256] + Le(a, 3) && Le(a, 3) == [a % 256] + Le(b, 2);
    assert Le(b, 2) == [b % 256] + Le(c, 1) && Le(c, 1) == [c % 256];
  }

  lemma LeWord64(x: nat)
    requires x < U64
    ensures Word64(Le(x, 8), 0) == x
  {
    var a, b, c := x / 256, x / 256 / 256, x / 256 / 256 / 256;
    var d := c / 256;
    assert Le(x, 8) == [x % 256] + Le(a, 7) && Le(a, 7) == [a % 256] + Le(b, 6);
    assert Le(b, 6) == [b % 256] + Le(c, 5) && Le(c, 5) == [c % 256] + Le(d, 4);
    assert x == x % 256 + 256 * a && a == a % 256 + 256 * b && b == b % 256 + 256 * c && c == c % 256 + 256 * d;
    assert x == Word(Le(x, 8), 0) + U32 * d;
    assert Le(x, 8)[4..8] == Le(d, 4)[0..4];
    WordAt(Le(x, 8), Le(d, 4), 4, 0);
    LeWord(d);
  }

  /** What C sees of a string: its bytes before the first zero. */
  function CutAtNul(s: seq<byte>): (r: seq<byte>)
    ensures r <= s && 0 !in r
    ensures r == s || s[|r|] == 0
  {
    if s == [] || s[0] == 0 then [] else [s[0]] + CutAtNul(s[1..])
  }

  /** The C string at offset `a` of memory `m` is `s`. */
  ghost predicate StringAt(m: seq<byte>, a: nat, s: seq<byte>) {
    a + |s| < |m| && m[a..a + |s| + 1] == s + [0] && 0 !in s
  }

  lemma NotLonger(m: seq<byte>, a: nat, s: seq<byte>, t: seq<byte>)
    requires StringAt(m, a, s) && StringAt(m, a, t)
    ensures |t| <= |s|
  {
    var z := (s + [0])[|s|];
    assert z == 0 && z == m[a..a + |s| + 1][|s|] == m[a + |s|];
    assert forall i :: 0 <= i < |t| ==> m[a + i] == m[a..a + |t| + 1][i] == (t + [0])[i] == t[i];
  }

  /** A C string is one string only. */
  lemma StringUnique(m: seq<byte>, a: nat, s: seq<byte>, t: seq<byte>)
    requires StringAt(m, a, s) && StringAt(m, a, t)
    ensures s == t
  {
    NotLonger(m, a, s, t);
    NotLonger(m, a, t, s);
    assert (s + [0])[..|s|] == (t + [0])[..|t|];
    assert (s + [0])[..|s|] == s && (t + [0])[..|t|] == t;
  }

  lemma CutStored(s: seq<byte>)
    ensures |CutAtNul(s)| <= |s| && (s + [0])[..|CutAtNul(s)| + 1] == CutAtNul(s) + [0]
  {
    hide CutAtNul;
  }

  lemma SliceOfSlice(m: seq<byte>, a: nat, n: nat, k: nat)
    requires k <= n && a + n <= |m|
    ensures m[a..a + n][..k] == m[a..a + k]
  {
  }

  /** A stored string with its zero byte is read back up to its first zero byte. */
  lemma StringStored(m: seq<byte>, a: nat, s: seq<byte>)
    requires a + |s| + 1 <= |m| && m[a..a + |s| + 1] == s + [0]
    ensures StringAt(m, a, CutAtNul(s))
  {
    var c := CutAtNul(s);
    CutStored(s);
    SliceOfSlice(m, a, |s| + 1, |c| + 1);
    hide CutAtNul;
  }
}
