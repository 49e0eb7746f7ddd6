/** Number printing of kernel/debugout.c. */
module DebugOut {
  import opened Integers

  /** The largest signed long long. */
  const I64_MAX := 0x7fff_ffff_ffff_ffff

  function DigitChar(d: nat): char
    requires d < 36
  {
    if d < 10 then '0' + d as char else 'a' + (d - 10) as char
  }

  /** The digits, in order. */
  lemma DigitIs(d: nat)
    requires d < 36
    ensures DigitChar(d) == "0123456789abcdefghijklmnopqrstuvwxyz"[d]
  {
  }

  function DigitValue(c: char): (d: int) {
    if '0' <= c <= '9' then c as int - '0' as int
    else if 'a' <= c <= 'z' then c as int - 'a' as int + 10 else -1
  }

  /** The number a string of digits stands for. */
  function Parse(s: string, base: nat): int {
    if s == "" then 0 else Parse(s[..|s| - 1], base) * base + DigitValue(s[|s| - 1])
  }

  predicate AllDigits(s: string, base: nat) {
    forall i :: 0 <= i < |s| ==> 0 <= DigitValue(s[i]) < base
  }

  lemma Distribute(a: int, p: int, b: int, base: int)
    ensures (a * p + b) * base == a * (p * base) + b * base
  {
  }

  function Power(b: nat, n: nat): nat {
    if n == 0 then 1 else Power(b, n - 1) * b
  }

  lemma {:induction false} ParseJoin(s: string, t: string, base: nat)
    ensures Parse(s + t, base) == Parse(s, base) * Power(base, |t|) + Parse(t, base)
  {
    if t == "" {
      assert s + t == s;
    } else {
      var u := t[..|t| - 1];
      assert (s + t)[..|s + t| - 1] == s + u;
      ParseJoin(s, u, base);
      Distribute(Parse(s, base), Power(base, |u|), Parse(u, base), base);
    }
  }

  lemma Grows(a: nat, b: nat)
    requires a > 0 && b > 0
    ensures a * b >= a
  {
    assert a * (b - 1) >= 0;
  }

  lemma {:induction false} PowerPositive(b: nat, n: nat)
    requires b > 0
    ensures Power(b, n) > 0
  {
    if n > 0 {
      PowerPositive(b, n - 1);
      Grows(Power(b, n - 1), b);
    }
  }

  lemma Below(d: int, b: nat)
    ensures d >= 1 ==> d * b >= b
    ensures d <= -1 ==> d * b <= 0 - b
  {
    if d >= 1 {
      assert (d - 1) * b >= 0;
    } else if d <= -1 {
      assert (-1 - d) * b >= 0;
    }
  }

  lemma Quotient(a: nat, b: nat)
    requires b > 0
    ensures a * b / b == a
  {
    var c, r := a * b / b, a * b % b;
    assert (a - c) * b == r;
    Below(a - c, b);
  }

  function Div(a: nat, b: nat): nat
    requires b > 0
  {
    a / b
  }

  lemma PowerNext(b: nat, n: nat)
    requires n > 0 && b > 0
    ensures Power(b, n) == Power(b, n - 1) * b && Power(b, n - 1) > 0 && Div(Power(b, n), b) == Power(b, n - 1)
  {
    PowerPositive(b, n - 1);
    Quotient(Power(b, n - 1), b);
  }

  function Mod(a: nat, b: nat): (r: nat)
    requires b > 0
    ensures r < b
  {
    a % b
  }

  lemma DivMod(a: nat, b: nat)
    requires b > 0
    ensures a == Div(a, b) * b + Mod(a, b) && (a >= b ==> Div(a, b) >= 1)
  {
    var d := a / b;
    assert a == d * b + a % b;
    Below(d, b);
  }

  /** The digit at weight `q` of a number below `q * b`. */
  lemma DigitAt(n: nat, q: nat, b: nat)
    requires q > 0 && n < q * b
    ensures n == Div(n, q) * q + Mod(n, q) && Div(n, q) < b && (n >= q ==> Div(n, q) >= 1)
  {
    DivMod(n, q);
    hide Div, Mod;
    var d := Div(n, q);
    Below(d - b, q);
    assert (d - b) * q == d * q - b * q;
  }

  /** One more digit. */
  lemma ParseDigit(s: string, c: char, base: nat)
    ensures Parse(s + [c], base) == Parse(s, base) * base + DigitValue(c)
  {
    assert (s + [c])[..|s|] == s;
  }

  lemma CharOfDigit(d: nat)
    requires d < 36
    ensures DigitValue(DigitChar(d)) == d && (DigitChar(d) == '0' <==> d == 0)
  {
  }

  /** The digits of `n`, none for 0. */
  predicate Digits(s: string, n: nat, base: nat) {
    AllDigits(s, base) && Parse(s, base) == n && (s != "" ==> s[0] != '0')
  }

  lemma PowerZero(b: nat)
    ensures Power(b, 0) == 1
  {
  }

  lemma Larger(q: nat, b: nat)
    requires q > 0 && b >= 2
    ensures q * b > q
  {
    assert q * (b - 1) >= q by { Grows(q, b - 1); }
  }

  lemma Monotone(q: nat, n: nat, b: nat)
    requires q <= n
    ensures q * b <= n * b
  {
    assert (n - q) * b >= 0;
  }

  /** The first loop of _debug_putn: the least power of the base above `n`, still a signed long long. */
  method Weight(n: nat, base: nat) returns (q: nat, ghost k: nat)
    requires 2 <= base <= 36 && n * base <= I64_MAX
    ensures q == Power(base, k) > n && q <= I64_MAX && (k > 0 ==> Power(base, k - 1) <= n)
  {
    hide Power;
    PowerNext(base, 1);
    PowerZero(base);
    q, k := 1, 0;
    while n >= q
      invariant q == Power(base, k) > 0 && q <= I64_MAX
      invariant k > 0 ==> Power(base, k - 1) <= n
      decreases n - q
    {
      Larger(q, base);
      Monotone(q, n, base);
      q, k := q * base, k + 1;
      PowerNext(base, k);
    }
  }

  /** `out` is printed and `m` is left, of which the digit of weight base^(k-1) is next. */
  ghost predicate Printing(n: nat, base: nat, k: nat, m: nat, out: string) {
    && m < Power(base, k) && AllDigits(out, base)
    && Parse(out, base) * Power(base, k) + m == n
    && if out == "" then m == n && (k > 0 ==> Power(base, k - 1) <= n) else n > 0 && out[0] != '0'
  }

  lemma Shift(p: int, b: int, q: int, d: int, r: int)
    ensures p * (q * b) + (d * q + r) == (p * b + d) * q + r
  {
  }

  lemma PrintTurn(n: nat, base: nat, k: nat, m: nat, out: string)
    requires 2 <= base <= 36 && k > 0 && Printing(n, base, k, m, out)
    ensures
      var q := Div(Power(base, k), base);
      q == Power(base, k - 1) > 0 && Div(m, q) < base &&
        Printing(n, base, k - 1, Mod(m, q), out + [DigitChar(Div(m, q))])
  {
    hide Power, Parse, DigitValue, DigitChar, Div, Mod;
    PowerNext(base, k);
    var q := Power(base, k - 1);
    DigitAt(m, q, base);
    CharOfDigit(Div(m, q));
    ParseDigit(out, DigitChar(Div(m, q)), base);
    Shift(Parse(out, base), base, q, Div(m, q), Mod(m, q));
  }

  lemma PrintStart(n: nat, base: nat, k: nat)
    requires Power(base, k) > n && (k > 0 ==> Power(base, k - 1) <= n)
    ensures Printing(n, base, k, n, "")
  {
  }

  lemma PrintEnd(n: nat, base: nat, m: nat, out: string)
    requires Printing(n, base, 0, m, out)
    ensures Digits(out, n, base) && (out == "" <==> n == 0)
  {
  }

  lemma PowerIsOne(b: nat, k: nat)
    requires b >= 2 && Power(b, k) <= 1
    ensures k == 0
  {
    if k > 0 {
      PowerPositive(b, k - 1);
      Larger(Power(b, k - 1), b);
    }
  }

  /** _debug_putn. */
  method PutDigits(n: nat, base: nat) returns (out: string)
    requires 2 <= base <= 36 && n * base <= I64_MAX
    ensures Digits(out, n, base) && (out == "" <==> n == 0)
  {
    hide Power, Parse, DigitValue, Printing, Div, Mod;
    var q;
    ghost var k;
    q, k := Weight(n, base);
    out := "";
    var m: nat := n;
    PrintStart(n, base, k);
    while q > 1
      invariant q == Power(base, k) && Printing(n, base, k, m, out)
      decreases k
    {
      assert k > 0 by { PowerZero(base); }
      PrintTurn(n, base, k, m, out);
      q, k := Div(q, base), k - 1;
      out := out + [DigitChar(Div(m, q))];
      m := Mod(m, q);
    }
    PowerIsOne(base, k);
    PrintEnd(n, base, m, out);
  }

  /** The decimal notation, or that of another base: one digit at least, no zero before others. */
  predicate Notation(s: string, n: nat, base: nat) {
    s != "" && AllDigits(s, base) && Parse(s, base) == n && (|s| > 1 ==> s[0] != '0')
  }

  /** The parts of a number and what they print make its notation. */
  lemma NumberParts(n: nat, base: nat, large: bool, h: nat, mid: nat, low: nat, high: string, next: string)
    requires 2 <= base <= 36 && mid < base && low < base && n == (h * base + mid) * base + low && (large <==> h >= 1)
    requires Digits(high, h, base) && (high == "" <==> h == 0)
    requires if large then next == [DigitChar(mid)] else Digits(next, mid, base)
    ensures Notation(high + next + [DigitChar(low)], n, base)
  {
    var out := high + next;
    hide Power, Parse, DigitValue, DigitChar;
    CharOfDigit(mid);
    CharOfDigit(low);
    ParseDigit(out, DigitChar(low), base);
    if large {
      ParseDigit(high, DigitChar(mid), base);
    } else {
      assert out == next;
    }
  }

  lemma HighFits(n: nat, b: nat)
    requires 2 <= b <= 36 && n < U64
    ensures Div(Div(n, b), b) * b <= I64_MAX
  {
    DivMod(n, b);
    DivMod(Div(n, b), b);
    hide Div, Mod;
    Monotone(2, b, Div(n, b));
  }

  lemma Small(m: nat, b: nat)
    requires m < b <= 36
    ensures m * b <= I64_MAX
  {
    Monotone(m, 36, b);
  }

  lemma SquareSplit(n: nat, b: nat)
    requires b > 0
    ensures n == (Div(Div(n, b), b) * b + Mod(Div(n, b), b)) * b + Mod(n, b)
    ensures n >= b * b <==> Div(Div(n, b), b) >= 1
  {
    DivMod(n, b);
    DivMod(Div(n, b), b);
    hide Div, Mod;
    var d, h := Div(n, b), Div(Div(n, b), b);
    Below(d - b, b);
    assert (d - b) * b == d * b - b * b;
    Below(h, b);
  }

  /** debug_putn, for every unsigned long long: the last two digits are split off first. */
  method PutNumber(n: nat, base: nat) returns (out: string)
    requires 2 <= base <= 36 && n < U64
    ensures Notation(out, n, base)
  {
    hide Power, Parse, DigitValue, DigitChar, Div, Mod, Notation, Digits;
    SquareSplit(n, base);
    HighFits(n, base);
    var mid, low := Mod(Div(n, base), base), Mod(n, base);
    Small(mid, base);
    var large := n >= base * base;
    var high := PutDigits(Div(Div(n, base), base), base);
    var next: string := "";
    if large {
      next := [DigitChar(mid)];
    } else {
      next := PutDigits(mid, base);
    }
    NumberParts(n, base, large, Div(Div(n, base), base), mid, low, high, next);
    out := high + next + [DigitChar(low)];
  }

  /** debug_putns. The negation of the least number wraps to itself, which prints the same. */
  method PutSigned(n: int, base: nat) returns (out: string)
    requires 2 <= base <= 36 && -I64_MAX - 1 <= n <= I64_MAX
    ensures n >= 0 ==> Notation(out, n, base)
    ensures n < 0 ==> |out| > 0 && out[0] == '-' && Notation(out[1..], -n, base)
  {
    if n < 0 {
      var digits := PutNumber(if n == -I64_MAX - 1 then I64_MAX + 1 else -n, base);
      out := "-" + digits;
      assert out[1..] == digits;
    } else {
      out := PutNumber(n, base);
    }
  }
}
