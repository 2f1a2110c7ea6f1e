/** Numbers as text, and splitting text at a separator. */
module Text {

  const DIGITS := "0123456789abcdef"

  /** Decimal or hexadecimal. */
  type Base = b: nat | b == 10 || b == 16 witness 10

  function DigitValue(c: char): nat
    ensures DigitValue(c) < 16
  {
    if '0' <= c <= '9' then (c - '0') as int else if 'a' <= c <= 'f' then (c - 'a') as int + 10 else 0
  }

  lemma DigitRoundTrip(d: nat)
    requires d < 16
    ensures DigitValue(DIGITS[d]) == d && DIGITS[d] != '|' && DIGITS[d] != '-' && DIGITS[d] != '\n'
  {
    assert DIGITS[0] == '0' && DIGITS[1] == '1' && DIGITS[2] == '2' && DIGITS[3] == '3';
    assert DIGITS[4] == '4' && DIGITS[5] == '5' && DIGITS[6] == '6' && DIGITS[7] == '7';
    assert DIGITS[8] == '8' && DIGITS[9] == '9' && DIGITS[10] == 'a' && DIGITS[11] == 'b';
    assert DIGITS[12] == 'c' && DIGITS[13] == 'd' && DIGITS[14] == 'e' && DIGITS[15] == 'f';
  }

  function Times(n: nat, base: Base): nat {
    if base == 10 then n * 10 else n * 16
  }

  function Over(n: nat, base: Base): nat {
    if base == 10 then n / 10 else n / 16
  }

  function LastDigit(n: nat, base: Base): nat
    ensures LastDigit(n, base) < 16
  {
    if base == 10 then n % 10 else n % 16
  }

  lemma QuotientBound(n: nat, base: Base, p: nat)
    requires n < Times(p, base)
    ensures Over(n, base) < p && Times(Over(n, base), base) + LastDigit(n, base) == n
  {
  }

  function Power(base: Base, width: nat): nat {
    if width == 0 then 1 else Times(Power(base, width - 1), base)
  }

  /** `n` in `width` digits, most significant first; higher digits are cut off. */
  function Padded(n: nat, base: Base, width: nat): (s: string)
    ensures |s| == width
  {
    if width == 0 then "" else Padded(Over(n, base), base, width - 1) + [DIGITS[LastDigit(n, base)]]
  }

  /** Two decimal digits are the tens and the units. */
  lemma TwoDigits(n: nat)
    requires n < 100
    ensures Padded(n, 10, 2) == ["0123456789"[n / 10], "0123456789"[n % 10]]
  {
    assert Padded(n / 10, 10, 1) == Padded(n / 10 / 10, 10, 0) + [DIGITS[n / 10 % 10]];
    assert forall d :: 0 <= d < 10 ==> "0123456789"[d] == DIGITS[d];
  }

  /** The shortest decimal form of `n`. */
  function Decimal(n: nat): (s: string)
    ensures |s| > 0
  {
    if n < 10 then [DIGITS[n]] else Decimal(n / 10) + [DIGITS[n % 10]]
  }

  function ParseDigits(s: string, base: Base): nat {
    if s == "" then 0 else Times(ParseDigits(s[..|s| - 1], base), base) + DigitValue(s[|s| - 1])
  }

  predicate Plain(s: string) {
    '|' !in s && '-' !in s && '\n' !in s
  }

  lemma ParseAppend(s: string, d: nat, base: Base)
    requires d < 16
    ensures ParseDigits(s + [DIGITS[d]], base) == Times(ParseDigits(s, base), base) + d
    ensures Plain(s) ==> Plain(s + [DIGITS[d]])
  {
    DigitRoundTrip(d);
    assert (s + [DIGITS[d]])[..|s|] == s;
  }

  lemma {:induction false} ParsePadded(n: nat, base: Base, width: nat)
    requires n < Power(base, width)
    ensures ParseDigits(Padded(n, base, width), base) == n && Plain(Padded(n, base, width))
  {
    if width > 0 {
      QuotientBound(n, base, Power(base, width - 1));
      ParsePadded(Over(n, base), base, width - 1);
      ParseAppend(Padded(Over(n, base), base, width - 1), LastDigit(n, base), base);
    }
  }

  lemma {:induction false} ParseDecimal(n: nat)
    ensures ParseDigits(Decimal(n), 10) == n && Plain(Decimal(n))
  {
    if n < 10 {
      ParseAppend("", n, 10);
      assert "" + [DIGITS[n]] == Decimal(n);
    } else {
      ParseDecimal(n / 10);
      ParseAppend(Decimal(n / 10), n % 10, 10);
    }
  }

  /** What stands before the first `c`, and what follows it. */
  function Cut(s: string, c: char): (string, string) {
    if s == "" || s[0] == c then ("", if s == "" then "" else s[1..])
    else
      var (a, b) := Cut(s[1..], c);
      ([s[0]] + a, b)
  }

  lemma {:induction false} CutAtFirst(a: string, c: char, b: string)
    requires c !in a
    ensures Cut(a + [c] + b, c) == (a, b)
  {
    var s := a + [c] + b;
    if a == "" {
      assert s == [c] + b && s[1..] == b;
    } else {
      assert s[0] == a[0] && s[1..] == a[1..] + [c] + b;
      CutAtFirst(a[1..], c, b);
      assert [a[0]] + a[1..] == a;
    }
  }
}
