/** user/ulibc/ulibc.c: u_itoa and u_atoi in 32-bit arithmetic. */
module Decimal {
  newtype int32 = x: int | -0x8000_0000 <= x < 0x8000_0000

  const INT_MIN: int := -0x8000_0000

  function Digit(d: int): char
    requires 0 <= d < 10
  {
    (48 + d) as char
  }

  /** The digits of `n`, none for 0. */
  function Digits(n: nat): string {
    if n == 0 then [] else Digits(n / 10) + [Digit(n % 10)]
  }

  /** The decimal text of `n`. */
  function Text(n: int): string {
    (if n < 0 then ['-'] else []) + if n == 0 then ['0'] else Digits(if n < 0 then -n else n)
  }

  predicate IsDigit(c: char) { '0' <= c <= '9' }

  function DigitValue(c: char): nat
    requires IsDigit(c)
  {
    c as int - 48
  }

  /** The loop of u_atoi: `acc` grows by the digits up to the first other character. */
  function Scan(acc: nat, s: string): nat
    decreases |s|
  {
    if s == [] || !IsDigit(s[0]) then acc else Scan(acc * 10 + DigitValue(s[0]), s[1..])
  }

  /** No value the loop computes exceeds `max`. */
  predicate Within(acc: nat, s: string, max: nat)
    decreases |s|
  {
    acc <= max && (s == [] || !IsDigit(s[0]) || Within(acc * 10 + DigitValue(s[0]), s[1..], max))
  }

  function Parse(s: string): int {
    if s != [] && s[0] == '-' then 0 - Scan(0, s[1..]) else Scan(0, s)
  }

  // ---- round trip ---------------------------------------------------------

  lemma ScanOne(n: nat, c: char, rest: string, max: nat)
    requires 0 < n <= max && c == Digit(n % 10)
    ensures Scan(n / 10, [c] + rest) == Scan(n, rest)
    ensures Within(n, rest, max) ==> Within(n / 10, [c] + rest, max)
    ensures IsDigit(c)
  {
    assert ([c] + rest)[1..] == rest;
    assert n / 10 * 10 + DigitValue(c) == n;
  }

  lemma {:induction false} DigitsScan(n: nat, rest: string, max: nat)
    requires n <= max
    ensures Scan(0, Digits(n) + rest) == Scan(n, rest)
    ensures Within(n, rest, max) ==> Within(0, Digits(n) + rest, max)
    ensures Digits(n) != [] ==> IsDigit(Digits(n)[0])
    decreases n
  {
    hide Scan, Within, IsDigit, Digit;
    if n == 0 {
      assert Digits(n) + rest == rest;
    } else {
      var c := Digit(n % 10);
      ScanOne(n, c, rest, max);
      DigitsScan(n / 10, [c] + rest, max);
      assert Digits(n) + rest == Digits(n / 10) + ([c] + rest);
    }
  }

  lemma Stops(acc: nat, rest: string, max: nat)
    requires acc <= max && rest != [] && !IsDigit(rest[0])
    ensures Scan(acc, rest) == acc && Within(acc, rest, max)
  {
  }

  /** Reading back the text of `n` with anything that is no digit behind it gives `n`, and no value on the way is
      larger than the absolute value of `n`, so nothing overflows for n above INT_MIN. */
  lemma RoundTrip(n: int, rest: string, max: nat)
    requires rest != [] && !IsDigit(rest[0]) && 0 - max <= n <= max
    ensures Parse(Text(n) + rest) == n
    ensures var s := Text(n) + rest; Within(0, if s[0] == '-' then s[1..] else s, max)
  {
    var m := if n < 0 then -n else n;
    Stops(m, rest, max);
    DigitsScan(m, rest, max);
    if n < 0 {
      assert Text(n) + rest == ['-'] + (Digits(m) + rest);
      assert (Text(n) + rest)[1..] == Digits(m) + rest;
    } else if n == 0 {
      assert (Text(n) + rest)[1..] == rest;
    } else {
      assert Text(n) == Digits(n);
      assert (Digits(n) + rest)[0] == Digits(n)[0];
    }
  }

  function Pow10(k: nat): nat { if k == 0 then 1 else 10 * Pow10(k - 1) }

  lemma {:induction false} DigitsLength(n: nat, k: nat)
    requires n < Pow10(k)
    ensures |Digits(n)| <= k
    decreases k
  {
    if n != 0 {
      DigitsLength(n / 10, k - 1);
    }
  }

  lemma TenDigits(n: nat)
    requires n < 0x8000_0000
    ensures n < Pow10(10)
  {
    assert Pow10(5) == 100000;
    assert Pow10(10) == 100000 * Pow10(5);
  }

  /** The text of an int is at most 11 characters. */
  lemma TextLength(n: int)
    requires INT_MIN < n < 0x8000_0000
    ensures 0 < |Text(n)| <= 11
  {
    var m := if n < 0 then -n else n;
    TenDigits(m);
    DigitsLength(m, 10);
    if n != 0 {
      assert Digits(m) != [];
    }
  }

  // ---- in place -----------------------------------------------------------

  function Rev(s: string): (r: string)
    ensures |r| == |s|
  {
    if s == [] then [] else [s[|s| - 1]] + Rev(s[..|s| - 1])
  }

  lemma {:induction false} RevAt(s: string, j: nat)
    requires j < |s|
    ensures Rev(s)[j] == s[|s| - 1 - j]
  {
    if j > 0 {
      RevAt(s[..|s| - 1], j - 1);
    }
  }

  lemma RevAppend(s: string, c: char)
    ensures Rev(s + [c]) == [c] + Rev(s)
  {
    assert (s + [c])[..|s|] == s;
  }

  /** The digit loop of u_itoa, least significant first. */
  method FillDigits(m0: int32, tmp: array<char>) returns (i: int)
    requires m0 > 0 && tmp.Length == 12
    modifies tmp
    ensures 0 <= i <= 10 && Rev(tmp[..i]) == Digits(m0 as int)
  {
    TenDigits(m0 as int);
    DigitsLength(m0 as int, 10);
    i := 0;
    var m := m0;
    while m > 0
      invariant 0 <= m && 0 <= i && i + |Digits(m as int)| == |Digits(m0 as int)| <= 10
      invariant Digits(m as int) + Rev(tmp[..i]) == Digits(m0 as int)
    {
      var c := ('0' as int + (m % 10) as int) as char;
      ghost var was := tmp[..i];
      tmp[i] := c;
      assert tmp[..i + 1] == was + [c];
      RevAppend(was, c);
      assert Digits(m as int) == Digits(m as int / 10) + [c];
      i, m := i + 1, m / 10;
    }
  }

  /** The reversing loop of u_itoa. */
  method PutReversed(buf: array<char>, at: nat, tmp: array<char>, i: nat)
    requires i <= tmp.Length && at + i <= buf.Length && buf != tmp
    modifies buf
    ensures buf[..] == old(buf[..at]) + Rev(tmp[..i]) + old(buf[at + i..])
  {
    ghost var r := Rev(tmp[..i]);
    for j := 0 to i
      invariant buf[..at] == old(buf[..at]) && buf[at..at + j] == r[..j] && buf[at + j..] == old(buf[at + j..])
    {
      RevAt(tmp[..i], j);
      buf[at + j] := tmp[i - 1 - j];
    }
  }

  /** u_itoa: the text and its terminator, and nothing else in the buffer. */
  method Itoa(n0: int32, buf: array<char>)
    requires n0 as int > INT_MIN && buf.Length >= 12
    modifies buf
    ensures var t := Text(n0 as int);
      |t| <= 11 && buf[..] == t + ['\0'] + old(buf[..])[|t| + 1..]
  {
    hide Digits, Rev;
    TextLength(n0 as int);
    var n, at := n0, 0;
    if n < 0 {
      buf[0] := '-';
      at, n := 1, -n;
    }
    ghost var sign := if n0 < 0 then ['-'] else [];
    assert buf[..at] == sign;
    var tmp := new char[12];
    if n == 0 {
      buf[at] := '0';
      buf[at + 1] := '\0';
      return;
    }
    var i := FillDigits(n, tmp);
    PutReversed(buf, at, tmp, i);
    buf[at + i] := '\0';
  }

  /** u_atoi on a string whose digits stop before the end of the buffer and stay in range. */
  method Atoi(s: array<char>) returns (r: int32)
    requires exists k :: 0 <= k < s.Length && s[k] == '\0'
    requires Within(0, if s[0] == '-' then s[1..] else s[..], 0x7FFF_FFFF)
    ensures r as int == Parse(s[..])
  {
    var n: int32, neg, p := 0, false, 0;
    if s[0] == '-' {
      neg, p := true, 1;
    }
    ghost var from := s[p..];
    ghost var k :| 0 <= k < s.Length && s[k] == '\0';
    while '0' <= s[p] <= '9'
      invariant p <= k && n >= 0
      invariant Scan(n as int, s[p..]) == Scan(0, from) && Within(n as int, s[p..], 0x7FFF_FFFF)
      decreases s.Length - p
    {
      assert s[p..][1..] == s[p + 1..];
      n := n * 10 + (s[p] as int - '0' as int) as int32;
      p := p + 1;
    }
    assert s[..] == s[0..];
    return if neg then -n else n;
  }
}
